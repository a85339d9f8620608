/** Packets sealed with ChaCha20 and Poly1305 (cipher-chachapoly.c), for any MAC. */
module ChachaPoly {
  import opened Basics
  import opened Wire
  import opened ChaChaCore
  import opened ChaCha

  /** Byte i of the tag of a message under a one-time key. */
  type MacFunction = (Bytes, Bytes, nat) -> Byte

  const TAGLEN := 16
  const ONE: Bytes := [1, 0, 0, 0, 0, 0, 0, 0]

  /** struct chachapoly_ctx */
  datatype Keys = Keys(main: State, header: State)

  function Tag(mac: MacFunction, msg: Bytes, key: Bytes): (t: Bytes)
    ensures |t| == TAGLEN
  {
    seq(TAGLEN, (i: nat) => mac(msg, key, i))
  }

  /** The states the packet's three keystreams start from. */
  function MacState(k: Keys, seqnr: U32): State { WithIv(k.main, PutInt(seqnr, 8), None) }

  function HeaderState(k: Keys, seqnr: U32): State { WithIv(k.header, PutInt(seqnr, 8), None) }

  function PayloadState(k: Keys, seqnr: U32): State { WithIv(k.main, PutInt(seqnr, 8), Some(ONE)) }

  function Zeros(n: nat): Bytes { seq(n, _ => 0) }

  function PolyKey(block: BlockFunction, k: Keys, seqnr: U32): Bytes {
    Crypt(block, MacState(k, seqnr), Zeros(32))
  }

  /** Header and payload, each under its own keystream. */
  function CryptBoth(block: BlockFunction, k: Keys, seqnr: U32, m: Bytes, aadlen: nat): (c: Bytes)
    requires aadlen <= |m|
    ensures |c| == |m|
  {
    Crypt(block, HeaderState(k, seqnr), m[..aadlen]) + Crypt(block, PayloadState(k, seqnr), m[aadlen..])
  }

  function Seal(block: BlockFunction, mac: MacFunction, k: Keys, seqnr: U32, m: Bytes, aadlen: nat): (p: Bytes)
    requires aadlen <= |m|
    ensures |p| == |m| + TAGLEN
  {
    var c := CryptBoth(block, k, seqnr, m, aadlen);
    c + Tag(mac, c, PolyKey(block, k, seqnr))
  }

  /** None when the tag does not match. */
  function Open(block: BlockFunction, mac: MacFunction, k: Keys, seqnr: U32, p: Bytes, aadlen: nat): (r: Option<Bytes>)
    requires aadlen + TAGLEN <= |p|
    ensures r.Some? ==> |r.value| == |p| - TAGLEN
  {
    var n := |p| - TAGLEN;
    if Tag(mac, p[..n], PolyKey(block, k, seqnr)) != p[n..] then None
    else Some(CryptBoth(block, k, seqnr, p[..n], aadlen))
  }

  /** PEEK_U32 */
  function Peek32(b: Bytes): nat
    requires |b| == 4
  {
    var b0: int, b1: int, b2: int, b3: int := b[0], b[1], b[2], b[3];
    b0 * 0x100_0000 + b1 * 0x1_0000 + b2 * 0x100 + b3
  }

  /** chachapoly_get_length on the first bytes of a packet */
  function Length(block: BlockFunction, k: Keys, seqnr: U32, p: Bytes): Option<nat> {
    if |p| < 4 then None else Some(Peek32(Crypt(block, HeaderState(k, seqnr), p[..4])))
  }

  // ---- sealing and opening

  lemma Halves(a: Bytes, b: Bytes)
    ensures (a + b)[..|a|] == a && (a + b)[|a|..] == b
  {
  }

  lemma CryptBothUndoes(block: BlockFunction, k: Keys, seqnr: U32, m: Bytes, aadlen: nat)
    requires aadlen <= |m|
    ensures CryptBoth(block, k, seqnr, CryptBoth(block, k, seqnr, m, aadlen), aadlen) == m
  {
    var h, p := HeaderState(k, seqnr), PayloadState(k, seqnr);
    var a, b := m[..aadlen], m[aadlen..];
    assert a + b == m;
    CryptUndoes(block, h, a);
    CryptUndoes(block, p, b);
    BothOf(block, k, seqnr, Crypt(block, h, a), Crypt(block, p, b));
  }

  lemma BothOf(block: BlockFunction, k: Keys, seqnr: U32, a: Bytes, b: Bytes)
    ensures CryptBoth(block, k, seqnr, a + b, |a|) == Crypt(block, HeaderState(k, seqnr), a) + Crypt(block, PayloadState(k, seqnr), b)
  {
    Halves(a, b);
  }

  /** A packet opens to m exactly when it is m sealed. */
  lemma OpensIff(block: BlockFunction, mac: MacFunction, k: Keys, seqnr: U32, p: Bytes, m: Bytes, aadlen: nat)
    requires aadlen <= |m| && |p| == |m| + TAGLEN
    ensures Open(block, mac, k, seqnr, p, aadlen) == Some(m) <==> p == Seal(block, mac, k, seqnr, m, aadlen)
  {
    var n := |m|;
    assert p == p[..n] + p[n..];
    CryptBothUndoes(block, k, seqnr, p[..n], aadlen);
    CryptBothUndoes(block, k, seqnr, m, aadlen);
    Halves(CryptBoth(block, k, seqnr, m, aadlen), Tag(mac, CryptBoth(block, k, seqnr, m, aadlen), PolyKey(block, k, seqnr)));
  }

  lemma {:induction false} CryptPrefix(block: BlockFunction, s: State, m: Bytes, n: nat)
    requires n <= |m|
    ensures Crypt(block, s, m)[..n] == Crypt(block, s, m[..n])
  {
  }

  /** PEEK_U32 reads the number in four bytes, the most significant first. */
  lemma PeekIs(b: Bytes)
    requires |b| == 4
    ensures Peek32(b) == PeekInt(b)
  {
    assert b[..3][..2] == b[..2] && b[..2][..1] == b[..1] && b[..1][..0] == [];
    assert PeekInt(b[..1]) == b[0] && PeekInt(b[..2]) == PeekInt(b[..1]) * 256 + b[1];
    assert PeekInt(b[..3]) == PeekInt(b[..2]) * 256 + b[2];
  }

  /** The length of a sealed packet can be read before the rest of it arrives. */
  lemma LengthOfSealed(block: BlockFunction, mac: MacFunction, k: Keys, seqnr: U32, m: Bytes, aadlen: nat)
    requires 4 <= aadlen <= |m|
    ensures Length(block, k, seqnr, Seal(block, mac, k, seqnr, m, aadlen)) == Some(PeekInt(m[..4]))
  {
    PeekIs(m[..4]);
    var h := HeaderState(k, seqnr);
    var a := m[..aadlen];
    CryptPrefix(block, h, a, 4);
    CryptUndoes(block, h, a[..4]);
    assert Seal(block, mac, k, seqnr, m, aadlen)[..4] == Crypt(block, h, a)[..4] && a[..4] == m[..4];
  }

  // ---- the keystream blocks

  /** The block of the MAC key is at counter 0 and the payload's blocks at 1 and up, for every u_int length. */
  lemma CountersApart(k: Keys, seqnr: U32, i: nat)
    requires i < TWO_TO_32
    ensures Counter(MacState(k, seqnr)) == 0
    ensures Counter(Advance(PayloadState(k, seqnr), i / 64)) == 1 + i / 64
  {
    AdvanceCounts(PayloadState(k, seqnr), i / 64);
  }

  /** So the rounds that make the MAC key and those that make payload keystream never give the same words. */
  lemma RoundsApart(k: Keys, seqnr: U32, i: nat)
    requires i < TWO_TO_32
    ensures Rounds(MacState(k, seqnr)) != Rounds(Advance(PayloadState(k, seqnr), i / 64))
  {
    CountersApart(k, seqnr, i);
    if Rounds(MacState(k, seqnr)) == Rounds(Advance(PayloadState(k, seqnr), i / 64)) {
      RoundsPermute(MacState(k, seqnr), Advance(PayloadState(k, seqnr), i / 64));
    }
  }

  lemma BothParts(block: BlockFunction, k: Keys, seqnr: U32, m: Bytes, aadlen: nat, h: Bytes, p: Bytes)
    requires aadlen <= |m| && h == Crypt(block, HeaderState(k, seqnr), m[..aadlen])
    requires p == Crypt(block, PayloadState(k, seqnr), m[aadlen..])
    ensures h + p == CryptBoth(block, k, seqnr, m, aadlen)
  {
  }

  lemma TwoPieces(a: array<Byte>, m: nat, n: nat)
    requires m + n <= a.Length
    ensures a[..m + n] == a[..m] + a[m..m + n] && a[..m + n][..m] == a[..m] && a[..m + n][m..] == a[m..m + n]
  {
  }

  lemma SamePiece(rest: Bytes, piece: Bytes, n: nat)
    requires n <= |rest| && |piece| == n && forall i :: 0 <= i < n ==> piece[i] == rest[i]
    ensures piece == rest[..n]
  {
  }

  // ---- contexts

  /** The words that chacha_ivsetup does not overwrite. */
  predicate SameKeyWords(s: State, t: State) { s[..12] == t[..12] }

  lemma IvForgets(s: State, t: State, iv: Bytes, counter: Option<Bytes>)
    requires SameKeyWords(s, t) && |iv| == 8 && (counter.Some? ==> |counter.value| == 8)
    ensures WithIv(s, iv, counter) == WithIv(t, iv, counter)
  {
    assert forall i :: 0 <= i < 12 ==> s[i] == s[..12][i] && t[i] == t[..12][i];
  }

  lemma AdvancedKey(s: State, iv: Bytes, counter: Option<Bytes>, n: nat)
    requires |iv| == 8 && (counter.Some? ==> |counter.value| == 8)
    ensures SameKeyWords(Advance(WithIv(s, iv, counter), n), s)
  {
    AdvanceCounts(WithIv(s, iv, counter), n);
  }

  class PolyCtx {
    const main: ChachaCtx
    const header: ChachaCtx

    ghost function View(): Keys
      reads main, header
    {
      Keys(main.input, header.input)
    }

    /** The part of chachapoly_new after the length check. */
    constructor (key: Bytes)
      requires |key| == 64
      ensures main != header && fresh(main) && fresh(header)
      ensures View() == Keys(Keyed(key[..32]), Keyed(key[32..]))
    {
      main := new ChachaCtx(key[..32], 256);
      header := new ChachaCtx(key[32..], 256);
    }

    /** The one-time Poly1305 key: 32 zero bytes encrypted in place. */
    method OneTimeKey(ghost block: BlockFunction, seqnr: U32) returns (key: array<Byte>)
      requires main != header && IsMask(MaskWith(block))
      modifies main
      ensures fresh(key) && key[..] == PolyKey(block, old(View()), seqnr)
      ensures SameKeyWords(main.input, old(main.input))
    {
      key := new Byte[32](_ => 0);
      main.IvSetup(PutInt(seqnr, 8), None);
      assert key[..] == Zeros(32) && key[0..32] == key[..];
      EncryptWith(main, block, key, 0, key, 0, 32);
      assert key[0..32] == key[..];
      AdvancedKey(old(main.input), PutInt(seqnr, 8), None, Blocks(32));
    }

    /** The two encryptions of chachapoly_crypt. */
    method CryptParts(ghost block: BlockFunction, seqnr: U32, dest: array<Byte>, src: array<Byte>, len: nat, aadlen: nat)
      requires main != header && IsMask(MaskWith(block)) && aadlen + len <= src.Length && aadlen + len <= dest.Length
      modifies main, header, dest
      ensures dest[..aadlen + len] == CryptBoth(block, old(View()), seqnr, old(src[..aadlen + len]), aadlen)
      ensures dest[aadlen + len..] == old(dest[aadlen + len..])
      ensures SameKeyWords(main.input, old(main.input)) && SameKeyWords(header.input, old(header.input))
    {
      ghost var all, keys, tail := src[..aadlen + len], View(), src[aadlen..aadlen + len];
      TwoPieces(src, aadlen, len);
      CryptHeader(block, seqnr, dest, src, aadlen);
      ghost var h := dest[..aadlen];
      assert src[aadlen..aadlen + len] == tail by {
        if src == dest {
          SamePiece(old(src[aadlen..]), tail, len);
          SamePiece(src[aadlen..], src[aadlen..aadlen + len], len);
        }
      }
      CryptPayload(block, seqnr, dest, src, aadlen, len);
      TwoPieces(dest, aadlen, len);
      BothParts(block, keys, seqnr, all, aadlen, h, dest[aadlen..aadlen + len]);
    }

    method CryptPayload(ghost block: BlockFunction, seqnr: U32, dest: array<Byte>, src: array<Byte>, aadlen: nat, len: nat)
      requires main != header && IsMask(MaskWith(block)) && aadlen + len <= src.Length && aadlen + len <= dest.Length
      modifies main, dest
      ensures dest[aadlen..aadlen + len] == Crypt(block, PayloadState(old(View()), seqnr), old(src[aadlen..aadlen + len]))
      ensures dest[..aadlen] == old(dest[..aadlen]) && dest[aadlen + len..] == old(dest[aadlen + len..])
      ensures SameKeyWords(main.input, old(main.input))
    {
      main.IvSetup(PutInt(seqnr, 8), Some(ONE));
      EncryptWith(main, block, src, aadlen, dest, aadlen, len);
      AdvancedKey(old(main.input), PutInt(seqnr, 8), Some(ONE), Blocks(len));
    }

    method CryptHeader(ghost block: BlockFunction, seqnr: U32, dest: array<Byte>, src: array<Byte>, aadlen: nat)
      requires main != header && IsMask(MaskWith(block)) && aadlen <= src.Length && aadlen <= dest.Length
      modifies header, dest
      ensures dest[..aadlen] == Crypt(block, HeaderState(old(View()), seqnr), old(src[..aadlen]))
      ensures dest[aadlen..] == old(dest[aadlen..])
      ensures SameKeyWords(header.input, old(header.input))
    {
      if aadlen != 0 {
        header.IvSetup(PutInt(seqnr, 8), None);
        assert src[0..aadlen] == src[..aadlen];
        EncryptWith(header, block, src, 0, dest, 0, aadlen);
        assert dest[0..aadlen] == dest[..aadlen];
        AdvancedKey(old(header.input), PutInt(seqnr, 8), None, Blocks(aadlen));
      }
    }

    /** chachapoly_crypt; false is SSH_ERR_MAC_INVALID */
    method CryptPacket(mac: MacFunction, seqnr: U32, dest: array<Byte>, src: array<Byte>, len: nat,
                       aadlen: nat, encrypt: bool) returns (ok: bool)
      requires main != header
      requires aadlen + len + (if encrypt then 0 else TAGLEN) <= src.Length
      requires aadlen + len + (if encrypt then TAGLEN else 0) <= dest.Length
      modifies main, header, dest
      ensures SameKeyWords(main.input, old(main.input)) && SameKeyWords(header.input, old(header.input))
      ensures encrypt ==>
        var n := aadlen + len;
        && ok && dest[..n + TAGLEN] == Seal(Block, mac, old(View()), seqnr, old(src[..n]), aadlen)
        && dest[n + TAGLEN..] == old(dest[n + TAGLEN..])
      ensures !encrypt ==>
        var n := aadlen + len;
        match Open(Block, mac, old(View()), seqnr, old(src[..n + TAGLEN]), aadlen)
        case None => !ok && dest[..] == old(dest[..])
        case Some(m) => ok && dest[..n] == m && dest[n..] == old(dest[n..])
    {
      BlockMasks();
      ok := CryptWith(Block, mac, seqnr, dest, src, len, aadlen, encrypt);
    }

    /** The same for any block function that the ChaCha20 rounds compute. */
    method CryptWith(ghost block: BlockFunction, mac: MacFunction, seqnr: U32, dest: array<Byte>, src: array<Byte>, len: nat,
                     aadlen: nat, encrypt: bool) returns (ok: bool)
      requires main != header && IsMask(MaskWith(block))
      requires aadlen + len + (if encrypt then 0 else TAGLEN) <= src.Length
      requires aadlen + len + (if encrypt then TAGLEN else 0) <= dest.Length
      modifies main, header, dest
      ensures SameKeyWords(main.input, old(main.input)) && SameKeyWords(header.input, old(header.input))
      ensures encrypt ==>
        var n := aadlen + len;
        && ok && dest[..n + TAGLEN] == Seal(block, mac, old(View()), seqnr, old(src[..n]), aadlen)
        && dest[n + TAGLEN..] == old(dest[n + TAGLEN..])
      ensures !encrypt ==>
        var n := aadlen + len;
        match Open(block, mac, old(View()), seqnr, old(src[..n + TAGLEN]), aadlen)
        case None => !ok && dest[..] == old(dest[..])
        case Some(m) => ok && dest[..n] == m && dest[n..] == old(dest[n..])
    {
      var n := aadlen + len;
      var key := OneTimeKey(block, seqnr);
      KeysForget(block, Keys(old(main.input), header.input), View(), seqnr, src[..n], aadlen);
      if !encrypt {
        ghost var p := src[..n + TAGLEN];
        assert p[..n] == src[..n] && p[n..] == src[n..n + TAGLEN];
        if Tag(mac, src[..n], key[..]) != src[n..n + TAGLEN] {
          return false;
        }
      }
      CryptParts(block, seqnr, dest, src, len, aadlen);
      if encrypt {
        WriteTag(dest, n, Tag(mac, dest[..n], key[..]));
      }
      return true;
    }
  }

  /** chachapoly_new: NULL unless there are two 256-bit keys, the first for the payload */
  method NewContext(key: Bytes) returns (x: PolyCtx?)
    ensures x == null <==> |key| != 64
    ensures x != null ==> fresh(x) && x.main != x.header && x.View() == Keys(Keyed(key[..32]), Keyed(key[32..]))
  {
    if |key| != 32 + 32 {
      return null;
    }
    x := new PolyCtx(key);
  }

  /** chachapoly_get_length; None is SSH_ERR_MESSAGE_INCOMPLETE */
  method GetLength(x: PolyCtx, seqnr: U32, cp: array<Byte>) returns (plen: Option<nat>)
    requires x.main != x.header
    modifies x.header
    ensures plen == Length(Block, old(x.View()), seqnr, cp[..])
    ensures SameKeyWords(x.header.input, old(x.header.input))
  {
    BlockMasks();
    plen := LengthWith(x, Block, seqnr, cp);
  }

  method LengthWith(x: PolyCtx, ghost block: BlockFunction, seqnr: U32, cp: array<Byte>) returns (plen: Option<nat>)
    requires x.main != x.header && IsMask(MaskWith(block))
    modifies x.header
    ensures plen == Length(block, old(x.View()), seqnr, cp[..])
    ensures SameKeyWords(x.header.input, old(x.header.input))
  {
    if cp.Length < 4 {
      return None;
    }
    var buf := new Byte[4];
    x.header.IvSetup(PutInt(seqnr, 8), None);
    assert cp[0..4] == cp[..][..4];
    EncryptWith(x.header, block, cp, 0, buf, 0, 4);
    assert buf[0..4] == buf[..];
    AdvancedKey(old(x.header.input), PutInt(seqnr, 8), None, Blocks(4));
    plen := Some(Peek32(buf[..]));
  }

  lemma KeysForget(block: BlockFunction, k: Keys, l: Keys, seqnr: U32, m: Bytes, aadlen: nat)
    requires SameKeyWords(k.main, l.main) && SameKeyWords(k.header, l.header) && aadlen <= |m|
    ensures CryptBoth(block, k, seqnr, m, aadlen) == CryptBoth(block, l, seqnr, m, aadlen)
    ensures PolyKey(block, k, seqnr) == PolyKey(block, l, seqnr)
  {
    IvForgets(k.main, l.main, PutInt(seqnr, 8), None);
    IvForgets(k.main, l.main, PutInt(seqnr, 8), Some(ONE));
    IvForgets(k.header, l.header, PutInt(seqnr, 8), None);
  }

  method WriteTag(dest: array<Byte>, n: nat, tag: Bytes)
    requires n + |tag| <= dest.Length
    modifies dest
    ensures dest[..n + |tag|] == old(dest[..n]) + tag && dest[n + |tag|..] == old(dest[n + |tag|..])
  {
    for i := 0 to |tag|
      invariant dest[..n] == old(dest[..n]) && dest[n + |tag|..] == old(dest[n + |tag|..])
      invariant forall k :: n <= k < n + i ==> dest[k] == tag[k - n]
    {
      dest[n + i] := tag[i];
    }
    assert forall k :: n <= k < n + |tag| ==> dest[k] == tag[k - n];
  }

  // ---- a packet's way

  /** Two contexts made from the same key, whatever packets they have handled since. */
  ghost predicate SameKeys(x: PolyCtx, y: PolyCtx)
    reads x.main, x.header, y.main, y.header
  {
    SameKeyWords(x.main.input, y.main.input) && SameKeyWords(x.header.input, y.header.input)
  }

  lemma SealForgets(block: BlockFunction, mac: MacFunction, k: Keys, l: Keys, seqnr: U32, m: Bytes, aadlen: nat)
    requires SameKeyWords(k.main, l.main) && SameKeyWords(k.header, l.header) && aadlen <= |m|
    ensures Seal(block, mac, k, seqnr, m, aadlen) == Seal(block, mac, l, seqnr, m, aadlen)
  {
    KeysForget(block, k, l, seqnr, m, aadlen);
  }

  method Transmit(x: PolyCtx, ghost block: BlockFunction, mac: MacFunction, seqnr: U32, src: array<Byte>, len: nat, aadlen: nat)
    returns (sealed: array<Byte>)
    requires x.main != x.header && aadlen + len <= src.Length && IsMask(MaskWith(block))
    modifies x.main, x.header
    ensures fresh(sealed) && sealed[..] == Seal(block, mac, old(x.View()), seqnr, src[..aadlen + len], aadlen)
    ensures SameKeyWords(x.main.input, old(x.main.input)) && SameKeyWords(x.header.input, old(x.header.input))
  {
    var n := aadlen + len;
    sealed := new Byte[n + TAGLEN];
    var sent := x.CryptWith(block, mac, seqnr, sealed, src, len, aadlen, true);
    assert sealed[..] == sealed[..n + TAGLEN];
  }

  /** The receiver's two steps on a packet that is m sealed under its key. */
  method Accept(y: PolyCtx, ghost block: BlockFunction, mac: MacFunction, seqnr: U32, sealed: array<Byte>, ghost m: Bytes, aadlen: nat)
    returns (ok: bool, plen: Option<nat>, out: array<Byte>)
    requires y.main != y.header && 4 <= aadlen <= |m| && IsMask(MaskWith(block))
    requires sealed[..] == Seal(block, mac, y.View(), seqnr, m, aadlen)
    modifies y.main, y.header
    ensures ok && plen == Some(PeekInt(m[..4])) && fresh(out) && out[..] == m
    ensures SameKeyWords(y.main.input, old(y.main.input)) && SameKeyWords(y.header.input, old(y.header.input))
  {
    ghost var l := y.View();
    LengthOfSealed(block, mac, l, seqnr, m, aadlen);
    plen := LengthWith(y, block, seqnr, sealed);
    SealForgets(block, mac, l, y.View(), seqnr, m, aadlen);
    OpensIff(block, mac, y.View(), seqnr, sealed[..], m, aadlen);
    ok, out := Unseal(y, block, mac, seqnr, sealed, m, aadlen);
  }

  method Unseal(y: PolyCtx, ghost block: BlockFunction, mac: MacFunction, seqnr: U32, sealed: array<Byte>, ghost m: Bytes, aadlen: nat)
    returns (ok: bool, out: array<Byte>)
    requires y.main != y.header && aadlen + TAGLEN <= sealed.Length && IsMask(MaskWith(block))
    requires Open(block, mac, y.View(), seqnr, sealed[..], aadlen) == Some(m)
    modifies y.main, y.header
    ensures ok && fresh(out) && out[..] == m
    ensures SameKeyWords(y.main.input, old(y.main.input)) && SameKeyWords(y.header.input, old(y.header.input))
  {
    var n := sealed.Length - TAGLEN;
    out := new Byte[n];
    ghost var p := sealed[..n + TAGLEN];
    assert p == sealed[..];
    assert Open(block, mac, y.View(), seqnr, p, aadlen) == Some(m);
    ok := y.CryptWith(block, mac, seqnr, out, sealed, n - aadlen, aadlen, false);
    assert out[..] == out[..n];
  }

  /** x seals a packet; y, which has the same key, first reads its length and then opens it: it gets what x was given. */
  method Convey(x: PolyCtx, y: PolyCtx, mac: MacFunction, seqnr: U32, src: array<Byte>, len: nat, aadlen: nat)
    returns (ok: bool, plen: Option<nat>, out: array<Byte>)
    requires x.main != x.header && y.main != y.header && {x.main, x.header} !! {y.main, y.header} && SameKeys(x, y)
    requires aadlen + len <= src.Length && 4 <= aadlen
    modifies x.main, x.header, y.main, y.header
    ensures ok && plen == Some(PeekInt(src[..4])) && out[..] == src[..aadlen + len] && SameKeys(x, y)
  {
    BlockMasks();
    ok, plen, out := ConveyWith(x, y, Block, mac, seqnr, src, len, aadlen);
  }

  method ConveyWith(x: PolyCtx, y: PolyCtx, ghost block: BlockFunction, mac: MacFunction, seqnr: U32, src: array<Byte>, len: nat, aadlen: nat)
    returns (ok: bool, plen: Option<nat>, out: array<Byte>)
    requires x.main != x.header && y.main != y.header && {x.main, x.header} !! {y.main, y.header} && SameKeys(x, y)
    requires aadlen + len <= src.Length && 4 <= aadlen && IsMask(MaskWith(block))
    modifies x.main, x.header, y.main, y.header
    ensures ok && plen == Some(PeekInt(src[..4])) && out[..] == src[..aadlen + len] && SameKeys(x, y)
  {
    ghost var m, k, l := src[..aadlen + len], x.View(), y.View();
    var sealed := Transmit(x, block, mac, seqnr, src, len, aadlen);
    SealForgets(block, mac, k, l, seqnr, m, aadlen);
    assert m[..4] == src[..4];
    ok, plen, out := Accept(y, block, mac, seqnr, sealed, m, aadlen);
  }
}
