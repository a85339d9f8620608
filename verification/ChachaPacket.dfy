/** A sealed packet byte by byte: what is encrypted under which keystream, and what the tag covers. */
module ChachaPacket {
  import opened Basics
  import opened Words
  import opened Wire
  import opened ChaChaCore
  import opened ChaCha
  import opened ChachaPoly

  // ---- the three states

  /** The words of a state that a key sets. */
  predicate HasKey(s: State, k: State) { forall i :: 0 <= i < 12 ==> s[i] == k[i] }

  /** The last two words are the packet's sequence number in eight bytes, the most significant first. */
  predicate HasNonce(s: State, seqnr: U32) {
    && s[14] == 0
    && s[15] == seqnr / 0x100_0000 + seqnr / 0x1_0000 % 0x100 * 0x100 + seqnr / 0x100 % 0x100 * 0x1_0000 + seqnr % 0x100 * 0x100_0000
  }

  /**
   The length is encrypted under the second key from block 0 on, the payload under the first from block 1 on, and block 0
   of the first is the source of the tag's key. The sequence number is the nonce of all three.
   */
  lemma StatesAre(k: Keys, seqnr: U32)
    ensures var h, p, m := HeaderState(k, seqnr), PayloadState(k, seqnr), MacState(k, seqnr);
      && HasKey(h, k.header) && HasKey(p, k.main) && HasKey(m, k.main)
      && Counter(h) == 0 && Counter(p) == 1 && Counter(m) == 0
      && HasNonce(h, seqnr) && HasNonce(p, seqnr) && HasNonce(m, seqnr)
  {
    NonceIs(seqnr);
  }

  lemma NonceIs(seqnr: U32)
    ensures var b := PutInt(seqnr, 8);
      && b[0] == b[1] == b[2] == b[3] == 0
      && b[4] == seqnr / 0x100_0000 && b[5] == seqnr / 0x1_0000 % 0x100 && b[6] == seqnr / 0x100 % 0x100 && b[7] == seqnr % 0x100
  {
    var v1, v2, v3 := seqnr / 0x100, seqnr / 0x1_0000, seqnr / 0x100_0000;
    assert v1 / 0x100 == v2 && v2 / 0x100 == v3 && v3 / 0x100 == 0;
    LastByte(seqnr, 7);
    LastByte(v1, 6);
    LastByte(v2, 5);
    LastByte(v3, 4);
    NoBytes(4);
  }

  lemma LastByte(v: nat, k: nat)
    ensures PutInt(v, k + 1) == PutInt(v / 0x100, k) + [v % 0x100]
  {
  }

  lemma {:induction false} NoBytes(n: nat)
    ensures PutInt(0, n) == Zeros(n)
  {
    if n > 0 {
      NoBytes(n - 1);
    }
  }

  // ---- the bytes of a packet

  lemma XorZero(b: Byte)
    ensures XorByte(0, b) == b
  {
    ZeroXor(b);
  }

  lemma {:induction false} ZeroXor(b: nat)
    ensures Xor(0, b) == b
  {
    if b > 0 {
      ZeroXor(b / 2);
    }
  }

  /** The tag's key is the first half of a block. */
  lemma PolyKeyIs(block: BlockFunction, k: Keys, seqnr: U32, i: nat)
    requires i < 32
    ensures |PolyKey(block, k, seqnr)| == 32 && PolyKey(block, k, seqnr)[i] == block(MacState(k, seqnr), i)
  {
    XorZero(block(MacState(k, seqnr), i));
  }

  /** Byte i of the packet: of the length, of the payload, or of the tag, which is over all the bytes before it. */
  lemma SealedByte(block: BlockFunction, mac: MacFunction, k: Keys, seqnr: U32, m: Bytes, aadlen: nat, i: nat)
    requires aadlen <= |m| && i < |m| + 16
    ensures var p := Seal(block, mac, k, seqnr, m, aadlen);
      && |p| == |m| + 16
      && p[i] == if i < aadlen then XorByte(m[i], block(Advance(HeaderState(k, seqnr), i / 64), i % 64))
                 else if i < |m| then XorByte(m[i], block(Advance(PayloadState(k, seqnr), (i - aadlen) / 64), (i - aadlen) % 64))
                 else mac(p[..|m|], PolyKey(block, k, seqnr), i - |m|)
  {
    var c := CryptBoth(block, k, seqnr, m, aadlen);
    Halves(c, Tag(mac, c, PolyKey(block, k, seqnr)));
  }

  /** Byte i of the tag at n is that of the MAC of the n bytes before the tag. */
  predicate TaggedAt(mac: MacFunction, key: Bytes, p: Bytes, n: nat, i: nat)
    requires n + i < |p|
  {
    p[n + i] == mac(p[..n], key, i)
  }

  /** A packet is opened exactly if every byte of its tag is the MAC of all the bytes before it. */
  lemma OpensWhenTagged(block: BlockFunction, mac: MacFunction, k: Keys, seqnr: U32, p: Bytes, n: nat, aadlen: nat)
    requires aadlen <= n && |p| == n + 16
    ensures Open(block, mac, k, seqnr, p, aadlen).Some?
       <==> forall i :: 0 <= i < 16 ==> TaggedAt(mac, PolyKey(block, k, seqnr), p, n, i)
  {
    var t := Tag(mac, p[..n], PolyKey(block, k, seqnr));
    assert forall i :: 0 <= i < 16 ==> (TaggedAt(mac, PolyKey(block, k, seqnr), p, n, i) <==> p[n..][i] == t[i]);
    assert p[n..] == t <==> forall i :: 0 <= i < 16 ==> p[n..][i] == t[i];
  }

  /** The length can be read as soon as four bytes have come, and from nothing else. */
  lemma LengthFromFour(block: BlockFunction, k: Keys, seqnr: U32, p: Bytes)
    ensures Length(block, k, seqnr, p).Some? <==> |p| >= 4
    ensures |p| >= 4 ==> Length(block, k, seqnr, p) == Length(block, k, seqnr, p[..4])
  {
    if |p| >= 4 {
      assert p[..4][..4] == p[..4];
    }
  }
}
