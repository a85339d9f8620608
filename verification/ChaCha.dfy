/** chacha_encrypt_bytes: a keystream of 64-byte blocks under a 64-bit counter. */
module ChaCha {
  import opened Basics
  import opened Words
  import opened ChaChaCore
  import CounterMode

  /** Byte i of the keystream block of a state; what follows from the mode alone is proved for any such function. */
  type BlockFunction = (State, nat) -> Byte

  /** PLUSONE on words 12 and 13, with the carry */
  function Bump(s: State): State {
    if s[12] == TWO_TO_32 - 1 then s[12 := 0][13 := Plus(s[13], 1)] else s[12 := s[12] + 1]
  }

  function Advance(s: State, n: nat): State { CounterMode.Advance(Bump, s, n) }

  function Counter(s: State): nat {
    var low: int, high: int := s[12], s[13];
    high * TWO_TO_32 + low
  }

  function Stream(block: BlockFunction, s: State, i: nat): Byte { CounterMode.Stream(block, Bump, 64, s, i) }

  /** The output for input m. */
  function Crypt(block: BlockFunction, s: State, m: Bytes): (c: Bytes)
    ensures |c| == |m|
  {
    CounterMode.Crypt(block, Bump, 64, s, m)
  }

  function Blocks(n: nat): nat { (n + 63) / 64 }

  // ---- the counter

  lemma BumpCounts(s: State)
    ensures Counter(Bump(s)) == if Counter(s) == TWO_TO_64 - 1 then 0 else Counter(s) + 1
    ensures forall k :: 0 <= k < 16 && k != 12 && k != 13 ==> Bump(s)[k] == s[k]
  {
  }

  /** The counter goes up by one modulo 2^64 for each block; nothing else in the state changes. */
  lemma {:induction false} AdvanceCounts(s: State, n: nat)
    ensures Counter(Advance(s, n)) == (Counter(s) + n) % TWO_TO_64
    ensures forall k :: 0 <= k < 16 && k != 12 && k != 13 ==> Advance(s, n)[k] == s[k]
  {
    if n > 0 {
      AdvanceCounts(s, n - 1);
      BumpCounts(Advance(s, n - 1));
      CounterMode.ModNext(Counter(s) + n - 1, TWO_TO_64);
    }
  }

  // ---- the stream cipher

  lemma CryptUndoes(block: BlockFunction, s: State, m: Bytes)
    ensures Crypt(block, s, Crypt(block, s, m)) == m
  {
    CounterMode.CryptUndoes(block, Bump, 64, s, m);
  }

  /** Two calls, the first on whole blocks, do what one call does. */
  lemma CryptComposes(block: BlockFunction, s: State, a: Bytes, b: Bytes)
    requires |a| % 64 == 0
    ensures Crypt(block, s, a + b) == Crypt(block, s, a) + Crypt(block, Advance(s, Blocks(|a|)), b)
    ensures Advance(Advance(s, Blocks(|a|)), Blocks(|b|)) == Advance(s, Blocks(|a| + |b|))
  {
    CounterMode.CryptComposes(block, Bump, 64, s, |a| / 64, a, b);
    CounterMode.AdvanceTwice(Bump, s, |a| / 64, Blocks(|b|));
  }

  // ---- the buffers

  class ChachaCtx {
    var input: State

    /** A zeroed context after chacha_keysetup */
    constructor (k: Bytes, kbits: nat)
      requires |k| == (if kbits == 256 then 32 else 16)
      ensures input == Keyed(k)
    {
      var consts := if kbits == 256 then SIGMA else TAU;
      var second := if kbits == 256 then 16 else 0;
      input := [consts[0], consts[1], consts[2], consts[3], Load(k, 0), Load(k, 4), Load(k, 8), Load(k, 12),
                Load(k, second), Load(k, second + 4), Load(k, second + 8), Load(k, second + 12), 0, 0, 0, 0];
    }

    /** chacha_ivsetup; the counter is 0 when the caller passes NULL */
    method IvSetup(iv: Bytes, counter: Option<Bytes>)
      requires |iv| == 8 && (counter.Some? ==> |counter.value| == 8)
      modifies this
      ensures input == WithIv(old(input), iv, counter)
      ensures input[..12] == old(input)[..12]
      ensures Counter(input) == if counter.None? then 0 else Little(counter.value)
    {
      if counter.Some? {
        LittleEight(counter.value);
      }
      input := input[12 := if counter.None? then 0 else Load(counter.value, 0)];
      input := input[13 := if counter.None? then 0 else Load(counter.value, 4)];
      input := input[14 := Load(iv, 0)];
      input := input[15 := Load(iv, 4)];
    }

    /** chacha_encrypt_bytes; source and destination may be the same place */
    method EncryptBytes(ghost mask: Mask, m: array<Byte>, from: nat, c: array<Byte>, to: nat, bytes: nat)
      requires from + bytes <= m.Length && to + bytes <= c.Length && (m == c ==> from == to) && IsMask(mask)
      modifies this, c
      ensures input == Advance(old(input), Blocks(bytes))
      ensures MaskedInto(mask, old(input), old(m[from..from + bytes]), c[to..to + bytes])
      ensures c[..to] == old(c[..to]) && c[to + bytes..] == old(c[to + bytes..])
    {
      if bytes == 0 {
        return;
      }
      ghost var src := m[from..from + bytes];
      input := MaskBlocks(mask, input, m, from, c, to, bytes, src, MaskedBytes(mask, input, src));
    }
  }

  /** What byte i of the block of a state makes of a byte of the message. */
  type Mask = (State, nat, Byte) -> Byte

  function Masked(mask: Mask, s: State, i: nat, b: Byte): Byte { mask(Advance(s, i / 64), i % 64, b) }

  function MaskByte(s: State, i: nat, b: Byte): Byte { XorByte(b, Block(s, i)) }

  predicate AskedAt(s: State, i: nat) { true }

  /** `mask` is exclusive or with ChaCha20's block; spelled out only for the bytes that are asked about. */
  ghost predicate IsMask(mask: Mask) {
    forall s: State, i: nat, b: Byte {:trigger AskedAt(s, i), mask(s, i, b)} :: AskedAt(s, i) ==> mask(s, i, b) == MaskByte(s, i, b)
  }

  function MaskWith(block: BlockFunction): Mask { (s: State, i: nat, b: Byte) => XorByte(b, block(s, i)) }

  lemma BlockMasks()
    ensures IsMask(MaskWith(Block))
  {
  }

  /** chacha_encrypt_bytes in terms of the whole input. */
  method EncryptRange(x: ChachaCtx, m: array<Byte>, from: nat, c: array<Byte>, to: nat, bytes: nat)
    requires from + bytes <= m.Length && to + bytes <= c.Length && (m == c ==> from == to)
    modifies x, c
    ensures x.input == Advance(old(x.input), Blocks(bytes))
    ensures c[to..to + bytes] == Crypt(Block, old(x.input), old(m[from..from + bytes]))
    ensures c[..to] == old(c[..to]) && c[to + bytes..] == old(c[to + bytes..])
  {
    BlockMasks();
    EncryptWith(x, Block, m, from, c, to, bytes);
  }

  method EncryptWith(x: ChachaCtx, ghost block: BlockFunction, m: array<Byte>, from: nat, c: array<Byte>, to: nat, bytes: nat)
    requires from + bytes <= m.Length && to + bytes <= c.Length && (m == c ==> from == to) && IsMask(MaskWith(block))
    modifies x, c
    ensures x.input == Advance(old(x.input), Blocks(bytes))
    ensures c[to..to + bytes] == Crypt(block, old(x.input), old(m[from..from + bytes]))
    ensures c[..to] == old(c[..to]) && c[to + bytes..] == old(c[to + bytes..])
  {
    ghost var s, b := x.input, m[from..from + bytes];
    x.EncryptBytes(MaskWith(block), m, from, c, to, bytes);
    CryptIsMasked(block, s, b, c[to..to + bytes]);
  }

  lemma CryptIsMasked(block: BlockFunction, s: State, m: Bytes, c: Bytes)
    requires MaskedInto(MaskWith(block), s, m, c)
    ensures c == Crypt(block, s, m)
  {
  }

  /** Before byte `done` of a message of so many bytes, the state from `start` has come to j. */
  ghost predicate BlockAt(start: State, done: nat, bytes: nat, j: State) {
    done <= bytes && (done < bytes ==> done % 64 == 0) && j == Advance(start, Blocks(done))
  }

  /** `out` is what `src` becomes, byte by byte. */
  ghost predicate MaskedInto(mask: Mask, start: State, src: Bytes, out: Bytes) {
    |out| == |src| && forall k :: 0 <= k < |src| ==> out[k] == Masked(mask, start, k, src[k])
  }

  ghost function MaskedBytes(mask: Mask, start: State, src: Bytes): (out: Bytes)
    ensures MaskedInto(mask, start, src, out)
  {
    seq(|src|, k requires 0 <= k < |src| => Masked(mask, start, k, src[k]))
  }

  /** The loop over the blocks of a message; the last one may be short. */
  method MaskBlocks(ghost mask: Mask, start: State, m: array<Byte>, from: nat, c: array<Byte>, to: nat, bytes: nat,
                    ghost src: Bytes, ghost out: Bytes)
    returns (j: State)
    requires from + bytes <= m.Length && to + bytes <= c.Length && (m == c ==> from == to) && IsMask(mask)
    requires src == m[from..from + bytes] && MaskedInto(mask, start, src, out)
    modifies c
    ensures j == Advance(start, Blocks(bytes))
    ensures c[to..to + bytes] == out && c[..to] == old(c[..to]) && c[to + bytes..] == old(c[to + bytes..])
  {
    j := start;
    var done := 0;
    while done < bytes
      invariant 0 <= done <= bytes && BlockAt(start, done, bytes, j)
      invariant forall k :: 0 <= k < done ==> c[to + k] == out[k]
      invariant forall k :: done <= k < bytes ==> m[from + k] == src[k]
      invariant forall k :: 0 <= k < c.Length && !(to <= k < to + bytes) ==> c[k] == old(c[k])
    {
      var n := if bytes - done < 64 then bytes - done else 64;
      NextState(start, done, bytes, j, n);
      NextBlock(mask, start, j, done, m, from, c, to, n, src, out);
      j := Bump(j);
      done := done + n;
    }
  }

  lemma NextState(start: State, done: nat, bytes: nat, j: State, n: nat)
    requires BlockAt(start, done, bytes, j) && done < bytes && n == if bytes - done < 64 then bytes - done else 64
    ensures BlockAt(start, done + n, bytes, Bump(j)) && j == Advance(start, done / 64)
  {
  }

  /** The block that starts at byte `done` of the message. */
  method NextBlock(ghost mask: Mask, ghost start: State, j: State, done: nat, m: array<Byte>, from: nat, c: array<Byte>, to: nat, n: nat,
                   ghost src: Bytes, ghost out: Bytes)
    requires n <= 64 && done + n <= |src| && from + done + n <= m.Length && to + done + n <= c.Length && (m == c ==> from == to)
    requires IsMask(mask) && MaskedInto(mask, start, src, out) && done % 64 == 0 && j == Advance(start, done / 64)
    requires forall k :: done <= k < done + n ==> m[from + k] == src[k]
    modifies c
    ensures forall k :: done <= k < done + n ==> c[to + k] == out[k]
    ensures forall k :: 0 <= k < c.Length && !(to + done <= k < to + done + n) ==> c[k] == old(c[k])
  {
    if n < 64 {
      PartBlock(mask, j, m, from + done, c, to + done, n);
    } else {
      WholeBlock(mask, j, m, from + done, c, to + done);
    }
    forall k | done <= k < done + n ensures c[to + k] == out[k] {
      assert k / 64 == done / 64 && k % 64 == k - done;
      assert c[to + k] == mask(j, k - done, src[k]);
    }
  }

  /** The last block when it is not whole, by way of a temporary buffer. */
  method PartBlock(ghost mask: Mask, j: State, m: array<Byte>, from: nat, c: array<Byte>, to: nat, n: nat)
    requires from + n <= m.Length && to + n <= c.Length && (m == c ==> from == to) && n < 64 && IsMask(mask)
    modifies c
    ensures forall k :: to <= k < to + n ==> c[k] == mask(j, k - to, old(m[from + k - to]))
    ensures forall k :: 0 <= k < c.Length && !(to <= k < to + n) ==> c[k] == old(c[k])
  {
    var tmp := new Byte[64](_ => 0);
    CopyBytes(m, from, tmp, 0, n);
    MaskBuffer(mask, j, tmp, n);
    CopyBytes(tmp, 0, c, to, n);
  }

  method MaskBuffer(ghost mask: Mask, j: State, tmp: array<Byte>, n: nat)
    requires tmp.Length == 64 && n <= 64 && IsMask(mask)
    modifies tmp
    ensures forall k :: 0 <= k < n ==> tmp[k] == mask(j, k, old(tmp[k]))
  {
    WholeBlock(mask, j, tmp, 0, tmp, 0);
  }

  /** The byte copy out of the temporary buffer. */
  method CopyBytes(m: array<Byte>, from: nat, c: array<Byte>, to: nat, n: nat)
    requires m != c && from + n <= m.Length && to + n <= c.Length
    modifies c
    ensures forall k :: to <= k < to + n ==> c[k] == m[from + k - to]
    ensures forall k :: 0 <= k < c.Length && !(to <= k < to + n) ==> c[k] == old(c[k])
  {
    for i := 0 to n
      invariant forall k :: to <= k < to + i ==> c[k] == m[from + k - to]
      invariant forall k :: 0 <= k < c.Length && !(to <= k < to + i) ==> c[k] == old(c[k])
    {
      c[to + i] := m[from + i];
    }
  }

  // ---- one block

  /** `mask` is exclusive or with the block that `rounds` make of j. */
  ghost predicate MaskOf(mask: Mask, rounds: State -> State, j: State) {
    forall k: nat, b: Byte :: mask(j, k, b) == XorByte(b, SumByte(rounds, j, k))
  }

  /** The rounds, the addition of the state, and the exclusive or with the message, word by word. */
  method MixWords(ghost mask: Mask, ghost rounds: State -> State, j: State, m: array<Byte>, from: nat) returns (x: array<U32>)
    requires from + 64 <= m.Length && IsRounds(rounds) && MaskOf(mask, rounds, j)
    ensures fresh(x) && x.Length == 16
    ensures forall k :: 0 <= k < 64 ==> Octet(x[k / 4], k % 4) == mask(j, k, m[from + k])
  {
    x := new U32[16](i requires 0 <= i < 16 => j[i]);
    assert x[..] == j;
    TwentyRounds(x, rounds);
    ghost var r, b := x[..], m[from..from + 64];
    AddAndMix(r, j, x, m[from..from + 64]);
    forall k | 0 <= k < 64 ensures Octet(x[k / 4], k % 4) == mask(j, k, m[from + k]) {
      MixedByte(rounds, mask, j, r, x[..], b, k);
    }
  }

  lemma MaskOfRounds(mask: Mask, j: State)
    requires IsMask(mask)
    ensures MaskOf(mask, Rounds, j) && IsRounds(Rounds)
  {
    forall k: nat, b: Byte ensures mask(j, k, b) == XorByte(b, SumByte(Rounds, j, k)) {
      assert AskedAt(j, k);
    }
  }

  /** Mixing word by word is masking byte by byte. */
  lemma MixedByte(rounds: State -> State, mask: Mask, j: State, r: State, x: seq<U32>, b: Bytes, k: nat)
    requires r == rounds(j) && |x| == 16 && |b| == 64 && k < 64 && mask(j, k, b[k]) == XorByte(b[k], SumByte(rounds, j, k))
    requires x[k / 4] == XorWord(Plus(r[k / 4], j[k / 4]), Load(b, 4 * (k / 4)))
    ensures Octet(x[k / 4], k % 4) == mask(j, k, b[k])
  {
    BlockByte(rounds, j, r, k);
    MixedOctet(Plus(r[k / 4], j[k / 4]), b, k);
  }

  lemma BlockByte(rounds: State -> State, j: State, r: State, k: nat)
    requires r == rounds(j) && k < 64
    ensures SumByte(rounds, j, k) == Octet(Plus(r[k / 4], j[k / 4]), k % 4)
  {
  }

  method AddAndMix(ghost r: State, j: State, x: array<U32>, b: Bytes)
    requires x.Length == 16 && x[..] == r && |b| == 64
    modifies x
    ensures forall i :: 0 <= i < 16 ==> x[i] == XorWord(Plus(r[i], j[i]), Load(b, 4 * i))
  {
    for i := 0 to 16
      invariant forall k :: 0 <= k < i ==> x[k] == XorWord(Plus(r[k], j[k]), Load(b, 4 * k))
      invariant forall k :: i <= k < 16 ==> x[k] == r[k]
    {
      x[i] := XorWord(Plus(x[i], j[i]), Load(b, 4 * i));
    }
  }

  /** U32TO8_LITTLE for each word. */
  method StoreWords(x: array<U32>, c: array<Byte>, to: nat)
    requires x.Length == 16 && to + 64 <= c.Length
    modifies c
    ensures forall k :: to <= k < to + 64 ==> c[k] == Octet(x[(k - to) / 4], (k - to) % 4)
    ensures forall k :: 0 <= k < c.Length && !(to <= k < to + 64) ==> c[k] == old(c[k])
  {
    for i := 0 to 16
      invariant forall k :: to <= k < to + 4 * i ==> c[k] == Octet(x[(k - to) / 4], (k - to) % 4)
      invariant forall k :: 0 <= k < c.Length && !(to <= k < to + 4 * i) ==> c[k] == old(c[k])
    {
      var at, v := to + 4 * i, x[i];
      c[at], c[at + 1], c[at + 2], c[at + 3] := Octet(v, 0), Octet(v, 1), Octet(v, 2), Octet(v, 3);
    }
  }

  lemma LoadOctet(b: Bytes, at: nat, k: nat)
    requires at + 4 <= |b| && k < 4
    ensures Octet(Load(b, at), k) == b[at + k]
  {
    var b0: nat, b1: nat, b2: nat, b3: nat := b[at], b[at + 1], b[at + 2], b[at + 3];
    OctetsOf(Load(b, at), b0, b1, b2, b3);
  }

  /** The bytes of a word that is given by its bytes. */
  lemma OctetsOf(w: nat, b0: nat, b1: nat, b2: nat, b3: nat)
    requires b0 < 256 && b1 < 256 && b2 < 256 && b3 < 256 && w == b0 + b1 * 0x100 + b2 * 0x1_0000 + b3 * 0x100_0000
    ensures Octet(w, 0) == b0 && Octet(w, 1) == b1 && Octet(w, 2) == b2 && Octet(w, 3) == b3
  {
    var x1, x2 := b1 + b2 * 0x100 + b3 * 0x1_0000, b2 + b3 * 0x100;
    OctetStep(w, b0, x1);
    OctetStep(x1, b1, x2);
    OctetStep(x2, b2, b3);
    OctetStep(b3, b3, 0);
  }

  lemma OctetStep(w: nat, b: nat, x: nat)
    requires b < 256 && w == b + x * 0x100
    ensures Octet(w, 0) == b && Octet(w, 1) == Octet(x, 0) && Octet(w, 2) == Octet(x, 1) && Octet(w, 3) == Octet(x, 2)
  {
    LowOctet(b, x);
  }

  lemma LowOctet(b: nat, x: nat)
    requires b < 256
    ensures (b + x * 0x100) % 256 == b && (b + x * 0x100) / 256 == x
  {
  }

  lemma MixedOctet(w: U32, b: Bytes, k: nat)
    requires |b| == 64 && k < 64
    ensures Octet(XorWord(w, Load(b, k / 4 * 4)), k % 4) == XorByte(b[k], Octet(w, k % 4))
  {
    var v := Load(b, k / 4 * 4);
    XorOctet(w, v, k % 4);
    LoadOctet(b, k / 4 * 4, k % 4);
    XorCommutes(b[k], Octet(w, k % 4));
  }

  method MixBlock(ghost mask: Mask, j: State, m: array<Byte>, from: nat) returns (x: array<U32>)
    requires from + 64 <= m.Length && IsMask(mask)
    ensures fresh(x) && x.Length == 16
    ensures forall k :: 0 <= k < 64 ==> Octet(x[k / 4], k % 4) == mask(j, k, m[from + k])
  {
    MaskOfRounds(mask, j);
    x := MixWords(mask, Rounds, j, m, from);
  }

  method WholeBlock(ghost mask: Mask, j: State, m: array<Byte>, from: nat, c: array<Byte>, to: nat)
    requires from + 64 <= m.Length && to + 64 <= c.Length && IsMask(mask)
    modifies c
    ensures forall k :: to <= k < to + 64 ==> c[k] == mask(j, k - to, old(m[from + k - to]))
    ensures forall k :: 0 <= k < c.Length && !(to <= k < to + 64) ==> c[k] == old(c[k])
  {
    var x := MixBlock(mask, j, m, from);
    assert forall k :: 0 <= k < 64 ==> Octet(x[k / 4], k % 4) == mask(j, k, old(m[from + k]));
    StoreWords(x, c, to);
  }

  /** U8TO32_LITTLE */
  function Load(b: Bytes, at: nat): U32
    requires at + 4 <= |b|
  {
    var b0: int, b1: int, b2: int, b3: int := b[at], b[at + 1], b[at + 2], b[at + 3];
    b0 + b1 * 0x100 + b2 * 0x1_0000 + b3 * 0x100_0000
  }

  /** The number whose bytes are b, the least significant first. */
  function Little(b: Bytes): nat {
    if b == [] then 0 else b[0] + 256 * Little(b[1..])
  }

  lemma LittleEight(b: Bytes)
    requires |b| == 8
    ensures Little(b) == Load(b, 0) + TWO_TO_32 * Load(b, 4)
  {
    var b1, b2, b3, b4, b5, b6, b7 := b[1..], b[2..], b[3..], b[4..], b[5..], b[6..], b[7..];
    assert b1[1..] == b2 && b2[1..] == b3 && b3[1..] == b4 && b4[1..] == b5 && b5[1..] == b6 && b6[1..] == b7 && b7[1..] == [];
    assert Little(b7) == b[7] && Little(b6) == b[6] + 256 * Little(b7) && Little(b5) == b[5] + 256 * Little(b6);
    assert Little(b4) == b[4] + 256 * Little(b5) == Load(b, 4);
    assert Little(b3) == b[3] + 256 * Little(b4) && Little(b2) == b[2] + 256 * Little(b3) && Little(b1) == b[1] + 256 * Little(b2);
  }

  function WithIv(s: State, iv: Bytes, counter: Option<Bytes>): State
    requires |iv| == 8 && (counter.Some? ==> |counter.value| == 8)
  {
    var low := if counter.None? then 0 else Load(counter.value, 0);
    var high := if counter.None? then 0 else Load(counter.value, 4);
    s[12 := low][13 := high][14 := Load(iv, 0)][15 := Load(iv, 4)]
  }

  /** "expand 32-byte k" and "expand 16-byte k" */
  const SIGMA: seq<U32> := [0x6170_7865, 0x3320_646e, 0x7962_2d32, 0x6b20_6574]
  const TAU: seq<U32> := [0x6170_7865, 0x3120_646e, 0x7962_2d36, 0x6b20_6574]

  /** The state for a key: constants, eight key words (a short key twice), no counter and no nonce. */
  function Keyed(k: Bytes): State
    requires |k| == 32 || |k| == 16
  {
    var consts, second := if |k| == 32 then SIGMA else TAU, if |k| == 32 then 16 else 0;
    [consts[0], consts[1], consts[2], consts[3], Load(k, 0), Load(k, 4), Load(k, 8), Load(k, 12),
     Load(k, second), Load(k, second + 4), Load(k, second + 8), Load(k, second + 12), 0, 0, 0, 0]
  }

  lemma LoadInjective(a: Bytes, b: Bytes, at: nat)
    requires at + 4 <= |a| && at + 4 <= |b| && Load(a, at) == Load(b, at)
    ensures a[at..at + 4] == b[at..at + 4]
  {
    var a1: int, a2: int, a3: int := a[at + 1], a[at + 2], a[at + 3];
    var b1: int, b2: int, b3: int := b[at + 1], b[at + 2], b[at + 3];
    LastDigit(a[at], a1 + 0x100 * a2 + 0x1_0000 * a3, b[at], b1 + 0x100 * b2 + 0x1_0000 * b3);
    LastDigit(a1, a2 + 0x100 * a3, b1, b2 + 0x100 * b3);
    LastDigit(a2, a3, b2, b3);
  }

  lemma LastDigit(a: Byte, x: int, b: Byte, y: int)
    requires a + 0x100 * x == b + 0x100 * y
    ensures a == b && x == y
  {
  }

  lemma SameEight(a: Bytes, b: Bytes)
    requires |a| == |b| == 8 && Load(a, 0) == Load(b, 0) && Load(a, 4) == Load(b, 4)
    ensures a == b
  {
    LoadInjective(a, b, 0);
    LoadInjective(a, b, 4);
    assert a == a[0..4] + a[4..8] && b == b[0..4] + b[4..8];
  }

  /** A short key fills both halves of the key words. */
  function KeyBytes(k: Bytes): Bytes
    requires |k| == 32 || |k| == 16
  {
    if |k| == 32 then k else k + k
  }

  lemma KeyWord(k: Bytes, i: nat)
    requires (|k| == 32 || |k| == 16) && i < 8
    ensures Keyed(k)[4 + i] == Load(KeyBytes(k), 4 * i)
  {
  }

  lemma SameKey(a: Bytes, b: Bytes)
    requires (|a| == 32 || |a| == 16) && |a| == |b| && Keyed(a)[4..12] == Keyed(b)[4..12]
    ensures a == b
  {
    var s, t := Keyed(a), Keyed(b);
    forall i | 0 <= i < |a| ensures a[i] == b[i] {
      assert s[4 + i / 4] == s[4..12][i / 4] == t[4..12][i / 4] == t[4 + i / 4];
      SameKeyByte(a, b, i);
    }
  }

  lemma SameKeyByte(a: Bytes, b: Bytes, i: nat)
    requires (|a| == 32 || |a| == 16) && |a| == |b| && i < |a| && Keyed(a)[4 + i / 4] == Keyed(b)[4 + i / 4]
    ensures a[i] == b[i]
  {
    var at := i / 4 * 4;
    KeyWord(a, i / 4);
    KeyWord(b, i / 4);
    LoadInjective(KeyBytes(a), KeyBytes(b), at);
    assert KeyBytes(a)[at..at + 4][i % 4] == a[i] && KeyBytes(b)[at..at + 4][i % 4] == b[i];
  }

  /** Key, nonce and counter each reach the state whole: different ones, and keys of different length, make different states. */
  lemma StatesDiffer(k: Bytes, iv: Bytes, c: Bytes, k': Bytes, iv': Bytes, c': Bytes)
    requires (|k| == 32 || |k| == 16) && (|k'| == 32 || |k'| == 16) && |iv| == |iv'| == 8 && |c| == |c'| == 8
    requires WithIv(Keyed(k), iv, Some(c)) == WithIv(Keyed(k'), iv', Some(c'))
    ensures k == k' && iv == iv' && c == c'
  {
    var s, t := WithIv(Keyed(k), iv, Some(c)), WithIv(Keyed(k'), iv', Some(c'));
    assert s[12] == t[12] && s[13] == t[13] && s[14] == t[14] && s[15] == t[15] && s[1] == t[1];
    SameEight(c, c');
    SameEight(iv, iv');
    assert Keyed(k)[1] == s[1] && Keyed(k')[1] == t[1];
    assert Keyed(k)[4..12] == s[4..12] && Keyed(k')[4..12] == t[4..12];
    SameKey(k, k');
  }
}
