/** CBC mode over 16-byte blocks (cipher-aes.c), for any block cipher. */
module Cbc {
  import opened Basics

  type Data = seq<bv8>
  type Block = b: Data | |b| == 16 witness [0, 0, 0, 0, 0, 0, 0, 0, 0, 0, 0, 0, 0, 0, 0, 0]

  function Mix(a: Block, b: Block): Block {
    seq(16, i requires 0 <= i < 16 => a[i] ^ b[i])
  }

  function Encrypt(enc: Block -> Block, iv: Block, p: seq<Block>): (c: seq<Block>)
    ensures |c| == |p|
    decreases |p|
  {
    if p == [] then [] else var c := enc(Mix(p[0], iv)); [c] + Encrypt(enc, c, p[1..])
  }

  function Decrypt(dec: Block -> Block, iv: Block, c: seq<Block>): (p: seq<Block>)
    ensures |p| == |c|
    decreases |c|
  {
    if c == [] then [] else [Mix(dec(c[0]), iv)] + Decrypt(dec, c[0], c[1..])
  }

  /** The chaining value after ciphertext c. */
  function Last(iv: Block, c: seq<Block>): Block {
    if c == [] then iv else c[|c| - 1]
  }

  // ---- inverses and splitting

  ghost predicate Undoes(dec: Block -> Block, enc: Block -> Block) {
    forall b :: dec(enc(b)) == b
  }

  lemma MixTwice(a: Block, b: Block)
    ensures Mix(Mix(a, b), b) == a
  {
    forall i | 0 <= i < 16 ensures (a[i] ^ b[i]) ^ b[i] == a[i] {
    }
  }

  /** Decryption restores the plaintext, and both ends are left with the same chaining value. */
  lemma {:induction false} DecryptEncrypt(enc: Block -> Block, dec: Block -> Block, iv: Block, p: seq<Block>)
    requires Undoes(dec, enc)
    ensures Decrypt(dec, iv, Encrypt(enc, iv, p)) == p
    decreases |p|
  {
    if p != [] {
      var c := enc(Mix(p[0], iv));
      MixTwice(p[0], iv);
      DecryptEncrypt(enc, dec, c, p[1..]);
      assert Encrypt(enc, iv, p)[1..] == Encrypt(enc, c, p[1..]);
    }
  }

  lemma {:induction false} EncryptDecrypt(enc: Block -> Block, dec: Block -> Block, iv: Block, c: seq<Block>)
    requires Undoes(enc, dec)
    ensures Encrypt(enc, iv, Decrypt(dec, iv, c)) == c
    decreases |c|
  {
    if c != [] {
      MixTwice(dec(c[0]), iv);
      EncryptDecrypt(enc, dec, c[0], c[1..]);
      assert Decrypt(dec, iv, c)[1..] == Decrypt(dec, c[0], c[1..]);
    }
  }

  lemma Regroup(x: Block, a: seq<Block>, b: seq<Block>)
    ensures [x] + (a + b) == ([x] + a) + b
  {
  }

  /** Two calls on consecutive parts encrypt like one. */
  lemma {:induction false} EncryptSplits(enc: Block -> Block, iv: Block, a: seq<Block>, b: seq<Block>)
    ensures Encrypt(enc, iv, a + b) == Encrypt(enc, iv, a) + Encrypt(enc, Last(iv, Encrypt(enc, iv, a)), b)
    decreases |a|
  {
    if a == [] {
      assert a + b == b;
    } else {
      var c := enc(Mix(a[0], iv));
      var rest := Encrypt(enc, c, a[1..]);
      EncryptSplits(enc, c, a[1..], b);
      assert (a + b)[1..] == a[1..] + b && Last(c, rest) == Last(iv, [c] + rest);
      Regroup(c, rest, Encrypt(enc, Last(c, rest), b));
    }
  }

  lemma {:induction false} DecryptSplits(dec: Block -> Block, iv: Block, a: seq<Block>, b: seq<Block>)
    ensures Decrypt(dec, iv, a + b) == Decrypt(dec, iv, a) + Decrypt(dec, Last(iv, a), b)
    decreases |a|
  {
    if a == [] {
      assert a + b == b;
    } else {
      DecryptSplits(dec, a[0], a[1..], b);
      assert (a + b)[1..] == a[1..] + b && Last(a[0], a[1..]) == Last(iv, a);
      Regroup(Mix(dec(a[0]), iv), Decrypt(dec, a[0], a[1..]), Decrypt(dec, Last(iv, a), b));
    }
  }

  // ---- block by block

  lemma {:induction false} EncryptAt(enc: Block -> Block, iv: Block, p: seq<Block>, k: nat)
    requires k < |p|
    ensures var c := Encrypt(enc, iv, p); c[k] == enc(Mix(p[k], if k == 0 then iv else c[k - 1]))
    decreases |p|
  {
    if k > 0 {
      EncryptAt(enc, enc(Mix(p[0], iv)), p[1..], k - 1);
    }
  }

  lemma {:induction false} DecryptAt(dec: Block -> Block, iv: Block, c: seq<Block>, k: nat)
    requires k < |c|
    ensures Decrypt(dec, iv, c)[k] == Mix(dec(c[k]), if k == 0 then iv else c[k - 1])
    decreases |c|
  {
    if k > 0 {
      DecryptAt(dec, c[0], c[1..], k - 1);
    }
  }

  /** Block k of a byte string. */
  function At(b: Data, k: nat): Block
    requires 16 * k + 16 <= |b|
  {
    b[16 * k..16 * k + 16]
  }

  function Split(b: Data): (s: seq<Block>)
    ensures |s| == |b| / 16 && forall k :: 0 <= k < |s| ==> s[k] == At(b, k)
  {
    seq(|b| / 16, k requires 0 <= k < |b| / 16 => At(b, k))
  }

  // ---- the buffers

  function Put(x: Data, k: nat, b: Block): (y: Data)
    requires 16 * k + 16 <= |x|
    ensures |y| == |x|
  {
    x[..16 * k] + b + x[16 * k + 16..]
  }

  /** Blocks lo to hi of the buffer are those of c. */
  predicate Holds(x: Data, c: seq<Block>, lo: nat, hi: nat) {
    lo <= hi <= |c| && 16 * hi <= |x| && forall k :: lo <= k < hi ==> At(x, k) == c[k]
  }

  lemma PutAt(x: Data, k: nat, b: Block, l: nat)
    requires 16 * k + 16 <= |x| && 16 * l + 16 <= |x|
    ensures At(Put(x, k, b), l) == if l == k then b else At(x, l)
  {
    if l < k {
      assert 16 * l + 16 <= 16 * k;
    } else if l > k {
      assert 16 * l >= 16 * k + 16;
    }
  }

  lemma PutHolds(x: Data, k: nat, b: Block, c: seq<Block>, lo: nat, hi: nat)
    requires Holds(x, c, lo, hi) && 16 * k + 16 <= |x| && !(lo <= k < hi)
    ensures Holds(Put(x, k, b), c, lo, hi)
    ensures k < |c| && c[k] == b && k == hi ==> Holds(Put(x, k, b), c, lo, hi + 1)
    ensures k < |c| && c[k] == b && k + 1 == lo ==> Holds(Put(x, k, b), c, k, hi)
  {
    forall l: nat | 16 * l + 16 <= |x| ensures At(Put(x, k, b), l) == if l == k then b else At(x, l) {
      PutAt(x, k, b, l);
    }
  }

  lemma HoldsSplit(x: Data, c: seq<Block>)
    requires Holds(x, c, 0, |c|)
    ensures Split(x[..16 * |c|]) == c
  {
    var y := x[..16 * |c|];
    forall k | 0 <= k < |c| ensures At(y, k) == c[k] {
      assert At(y, k) == At(x, k);
    }
  }

  lemma SplitHolds(x: Data, n: nat)
    requires 16 * n <= |x|
    ensures |Split(x[..16 * n])| == n && Holds(x, Split(x[..16 * n]), 0, n)
  {
    var y := x[..16 * n];
    forall k | 0 <= k < n ensures At(x, k) == Split(y)[k] {
      assert At(y, k) == At(x, k);
    }
  }

  method PutBlock(x: array<bv8>, k: nat, b: Block)
    requires 16 * k + 16 <= x.Length
    modifies x
    ensures x[..] == Put(old(x[..]), k, b)
  {
    for j := 0 to 16
      invariant forall i :: 0 <= i < x.Length ==>
        x[i] == if 16 * k <= i < 16 * k + j then b[i - 16 * k] else old(x[i])
    {
      x[16 * k + j] := b[j];
    }
  }

  lemma PutTail(x: Data, k: nat, b: Block, n: nat)
    requires k < n && 16 * n <= |x|
    ensures Put(x, k, b)[16 * n..] == x[16 * n..]
  {
  }

  /** One round of the encryption loop: block i, chained to cprev. */
  method EncryptOne(enc: Block -> Block, dest: array<bv8>, src: array<bv8>, i: nat, cprev: Block,
                    ghost p: seq<Block>, ghost c: seq<Block>) returns (cnow: Block)
    requires i < |p| == |c| && 16 * |p| <= dest.Length && c[i] == enc(Mix(p[i], cprev))
    requires Holds(dest[..], c, 0, i) && Holds(src[..], p, i, |p|)
    modifies dest
    ensures cnow == c[i] && Holds(dest[..], c, 0, i + 1) && Holds(src[..], p, i + 1, |p|)
    ensures dest[..][16 * |p|..] == old(dest[..])[16 * |p|..]
  {
    var buf := Mix(At(src[..], i), cprev);
    cnow := enc(buf);
    PutHolds(dest[..], i, cnow, c, 0, i);
    PutTail(dest[..], i, cnow, |p|);
    PutHolds(if src == dest then src[..] else dest[..], i, cnow, p, i + 1, if src == dest then |p| else i + 1);
    PutBlock(dest, i, cnow);
  }

  /** One round of the decryption loop: block i, whose predecessor is ivp. */
  method DecryptOne(dec: Block -> Block, dest: array<bv8>, src: array<bv8>, i: nat, ivp: Block,
                    ghost p: seq<Block>, ghost c: seq<Block>)
    requires i < |p| == |c| && 16 * |p| <= dest.Length && p[i] == Mix(dec(c[i]), ivp)
    requires Holds(dest[..], p, i + 1, |p|) && Holds(src[..], c, 0, i + 1)
    modifies dest
    ensures Holds(dest[..], p, i, |p|) && Holds(src[..], c, 0, i)
    ensures dest[..][16 * |p|..] == old(dest[..])[16 * |p|..]
  {
    var plain := Mix(dec(At(src[..], i)), ivp);
    PutHolds(dest[..], i, plain, p, i + 1, |p|);
    PutTail(dest[..], i, plain, |p|);
    PutHolds(if src == dest then src[..] else dest[..], i, plain, c, 0, if src == dest then i else 0);
    PutBlock(dest, i, plain);
  }

  /** Block by block, each mixed with the one written before it. */
  method EncryptLoop(enc: Block -> Block, dest: array<bv8>, src: array<bv8>, blocks: nat, iv: Block,
                     ghost p: seq<Block>, ghost c: seq<Block>)
    returns (cprev: Block)
    requires 16 * blocks <= src.Length && 16 * blocks <= dest.Length
    requires |p| == blocks && c == Encrypt(enc, iv, p) && Holds(src[..], p, 0, blocks)
    modifies dest
    ensures cprev == Last(iv, c) && Holds(dest[..], c, 0, blocks)
    ensures dest[..][16 * blocks..] == old(dest[..])[16 * blocks..]
  {
    cprev := iv;
    for i := 0 to blocks
      invariant cprev == Last(iv, c[..i])
      invariant Holds(dest[..], c, 0, i) && Holds(src[..], p, i, blocks)
      invariant dest[..][16 * blocks..] == old(dest[..])[16 * blocks..]
    {
      EncryptAt(enc, iv, p, i);
      cprev := EncryptOne(enc, dest, src, i, cprev, p, c);
    }
    assert c[..blocks] == c;
  }

  datatype Outcome = Done | Fatal

  class CbcCtx {
    var iv: Block

    constructor (b: Block)
      ensures iv == b
    {
      iv := b;
    }

    /** The encryption loop of ssh_rijndael_cbc, forwards. */
    method EncryptBlocks(enc: Block -> Block, dest: array<bv8>, src: array<bv8>, blocks: nat)
      requires 16 * blocks <= src.Length && 16 * blocks <= dest.Length
      modifies this, dest
      ensures var p := old(Split(src[..16 * blocks]));
        && Split(dest[..16 * blocks]) == Encrypt(enc, old(iv), p)
        && iv == Last(old(iv), Encrypt(enc, old(iv), p))
      ensures dest[16 * blocks..] == old(dest[16 * blocks..])
    {
      ghost var p := Split(src[..16 * blocks]);
      ghost var c := Encrypt(enc, iv, p);
      SplitHolds(src[..], blocks);
      iv := EncryptLoop(enc, dest, src, blocks, iv, p, c);
      HoldsSplit(dest[..], c);
      assert dest[..][..16 * blocks] == dest[..16 * blocks];
    }

    /** The decryption loop, backwards so that it may run in place. */
    method DecryptBlocks(dec: Block -> Block, dest: array<bv8>, src: array<bv8>, blocks: nat)
      requires 0 < blocks && 16 * blocks <= src.Length && 16 * blocks <= dest.Length
      modifies this, dest
      ensures var c := old(Split(src[..16 * blocks]));
        Split(dest[..16 * blocks]) == Decrypt(dec, old(iv), c) && iv == Last(old(iv), c)
      ensures dest[16 * blocks..] == old(dest[16 * blocks..])
    {
      ghost var c := Split(src[..16 * blocks]);
      ghost var p := Decrypt(dec, iv, c);
      SplitHolds(src[..], blocks);
      var buf := At(src[..], blocks - 1);
      var i := blocks;
      while i > 0
        modifies dest
        invariant Holds(dest[..], p, i, blocks) && Holds(src[..], c, 0, i)
        invariant dest[..][16 * blocks..] == old(dest[..])[16 * blocks..]
      {
        DecryptAt(dec, iv, c, i - 1);
        var ivp := if i == 1 then iv else At(src[..], i - 2);
        DecryptOne(dec, dest, src, i - 1, ivp, p, c);
        i := i - 1;
      }
      iv := buf;
      HoldsSplit(dest[..], p);
      assert dest[..][..16 * blocks] == dest[..16 * blocks];
    }

    /** ssh_rijndael_cbc; a length that is not a multiple of the block size is fatal */
    method Crypt(enc: Block -> Block, dec: Block -> Block, dest: array<bv8>, src: array<bv8>, len: nat, encrypt: bool)
      returns (r: Outcome)
      requires len <= src.Length && len <= dest.Length
      modifies this, dest
      ensures r == if len % 16 == 0 then Done else Fatal
      ensures r == Fatal ==> dest[..] == old(dest[..]) && iv == old(iv)
      ensures r == Done ==>
        var s := old(Split(src[..len]));
        var d := if encrypt then Encrypt(enc, old(iv), s) else Decrypt(dec, old(iv), s);
        && Split(dest[..len]) == d && iv == Last(old(iv), if encrypt then d else s)
        && dest[len..] == old(dest[len..])
    {
      if len == 0 {
        return Done;
      }
      if len % 16 != 0 {
        return Fatal;
      }
      var blocks := len / 16;
      assert len == 16 * blocks;
      if encrypt {
        EncryptBlocks(enc, dest, src, blocks);
      } else {
        DecryptBlocks(dec, dest, src, blocks);
      }
      return Done;
    }
  }

  lemma SplitInjective(x: Data, y: Data)
    requires |x| == |y| && |x| % 16 == 0 && Split(x) == Split(y)
    ensures x == y
  {
    forall i | 0 <= i < |x| ensures x[i] == y[i] {
      var k := i / 16;
      assert Split(x)[k] == At(x, k) && Split(y)[k] == At(y, k);
      assert At(x, k)[i - 16 * k] == x[i] && At(y, k)[i - 16 * k] == y[i];
    }
  }

  /** x encrypts a buffer and y, in step with it, decrypts the result in place: y gets what x was given and stays in step. */
  method Convey(x: CbcCtx, y: CbcCtx, enc: Block -> Block, dec: Block -> Block, src: array<bv8>, len: nat)
    returns (r: Outcome, out: array<bv8>)
    requires x != y && x.iv == y.iv && Undoes(dec, enc) && len <= src.Length
    modifies x, y
    ensures r == if len % 16 == 0 then Done else Fatal
    ensures x.iv == y.iv && (r == Done ==> out[..] == src[..len])
  {
    out := new bv8[len];
    r := x.Crypt(enc, dec, out, src, len, true);
    if r == Fatal {
      return;
    }
    ghost var iv, p, c := old(x.iv), Split(src[..len]), out[..len];
    DecryptEncrypt(enc, dec, iv, p);
    r := y.Crypt(enc, dec, out, out, len, false);
    SplitInjective(out[..len], src[..len]);
    assert out[..] == out[..len];
  }
}
