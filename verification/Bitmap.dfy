/** The growable bit vector of bitmap.c as a set of naturals, and its big-endian byte form. */
module Bitmap {
  import opened Basics
  import opened Words

  const BITMAP_MAX := 0x100_0000

  /** The positions of the bits set in an array of words. */
  function Members(d: seq<U32>): set<nat> {
    set n: nat | n < 32 * |d| && Bit(d[n / 32], n % 32)
  }

  /** The positions of the bits set in a big-endian byte string. */
  function Decoded(s: Bytes): set<nat> {
    set n: nat | n < 8 * |s| && Bit(s[|s| - 1 - n / 8], n % 8)
  }

  /** b is the highest position plus one, or 0 for the empty set. */
  predicate IsWidth(s: set<nat>, b: nat) {
    (forall n :: n in s ==> n < b) && (b > 0 ==> b - 1 in s)
  }

  ghost predicate NeedsBytes(s: set<nat>, need: nat) {
    exists b: nat :: IsWidth(s, b) && need == (b + 7) / 8
  }

  /** The bytes without the leading zero ones. */
  function Strip(s: Bytes): Bytes {
    if s != [] && s[0] == 0 then Strip(s[1..]) else s
  }

  /** Byte m of the words, counted from the least significant one. */
  function ByteOf(d: seq<U32>, m: nat): (b: Byte)
    requires m / 4 < |d|
  {
    AndSize(Shr(d[m / 4], 8 * (m % 4)), 255);
    And(Shr(d[m / 4], 8 * (m % 4)), 255)
  }

  // ---- words and bits

  lemma {:induction false} LowByteBit(k: nat)
    ensures Bit(255, k) <==> k < 8
  {
    WordSize();
    if k < 8 {
      NotBit(0, 8, k);
      ZeroBit(k);
    } else {
      HighBits(255, 8, k);
    }
  }

  lemma ByteOfBit(d: seq<U32>, m: nat, t: nat)
    requires m / 4 < |d| && t < 8
    ensures Bit(ByteOf(d, m), t) <==> Bit(d[m / 4], 8 * (m % 4) + t)
  {
    var w := d[m / 4];
    AndBit(Shr(w, 8 * (m % 4)), 255, t);
    LowByteBit(t);
    ShrBit(w, 8 * (m % 4), t);
  }

  lemma ByteOfMember(d: seq<U32>, n: nat)
    requires n / 8 / 4 < |d|
    ensures Bit(ByteOf(d, n / 8), n % 8) <==> n in Members(d)
  {
    ByteOfBit(d, n / 8, n % 8);
    assert n / 8 / 4 == n / 32 && 8 * (n / 8 % 4) + n % 8 == n % 32;
  }

  lemma SetClearWord(w: U32, s: nat, k: nat)
    requires s < 32 && k < 32 && Shl(1, s) < Pow2(32)
    ensures Bit(Or(w, Shl(1, s)), k) <==> k == s || Bit(w, k)
    ensures Bit(And(w, Not(Shl(1, s), 32)), k) <==> k != s && Bit(w, k)
  {
    OrBit(w, Shl(1, s), k);
    AndBit(w, Not(Shl(1, s), 32), k);
    NotBit(Shl(1, s), 32, k);
    ShlOne(s);
    PowBit(s, k);
  }

  lemma SetMember(d: seq<U32>, n: nat, w: U32)
    requires n / 32 < |d| && forall k: nat :: k < 32 ==> (Bit(w, k) <==> k == n % 32 || Bit(d[n / 32], k))
    ensures Members(d[n / 32 := w]) == Members(d) + {n}
  {
  }

  lemma ClearMember(d: seq<U32>, n: nat, w: U32)
    requires n / 32 < |d| && forall k: nat :: k < 32 ==> (Bit(w, k) <==> k != n % 32 && Bit(d[n / 32], k))
    ensures Members(d[n / 32 := w]) == Members(d) - {n}
  {
  }

  lemma ZeroWords(d: seq<U32>, n: nat)
    requires n / 32 < |d| && d[n / 32] == 0
    ensures n !in Members(d)
  {
    ZeroBit(n % 32);
  }

  lemma AllZero(d: seq<U32>)
    requires forall i :: 0 <= i < |d| ==> d[i] == 0
    ensures Members(d) == {}
  {
    forall n: nat | n < 32 * |d| ensures n !in Members(d) {
      ZeroWords(d, n);
    }
  }

  lemma Extended(d: seq<U32>, e: seq<U32>)
    requires d <= e && forall i :: |d| <= i < |e| ==> e[i] == 0
    ensures Members(e) == Members(d)
  {
    forall n: nat | n < 32 * |e| ensures n in Members(e) <==> n in Members(d) {
      if n >= 32 * |d| {
        ZeroWords(e, n);
      }
    }
  }

  /** A word that is not zero has a highest bit. */
  lemma {:induction false} HighestBit(w: nat, n: nat) returns (h: nat)
    requires 0 < w < Pow2(n)
    ensures h < n && Bit(w, h) && forall i: nat :: i > h ==> !Bit(w, i)
  {
    if w == 1 {
      h := 0;
      forall i: nat | i > 0 ensures !Bit(1, i) {
        ZeroBit(i - 1);
      }
    } else {
      var g := HighestBit(w / 2, n - 1);
      h := g + 1;
      forall i: nat | i > h ensures !Bit(w, i) {
        assert !Bit(w / 2, i - 1);
      }
    }
  }

  lemma TopWidth(d: seq<U32>, top: nat, h: nat)
    requires top < |d| && h < 32 && Bit(d[top], h) && forall i: nat :: i > h ==> !Bit(d[top], i)
    requires forall i :: top < i < |d| ==> d[i] == 0
    ensures IsWidth(Members(d), 32 * top + h + 1)
  {
    var b := 32 * top + h + 1;
    assert (b - 1) / 32 == top && (b - 1) % 32 == h;
    forall n | n in Members(d) ensures n < b {
      if n / 32 > top {
        ZeroWords(d, n);
      }
    }
  }

  lemma SignBit(w: U32)
    ensures And(w, Shl(1, 31)) != 0 <==> Bit(w, 31)
  {
    WordSize();
    ShlOne(31);
    if Bit(w, 31) {
      AndBit(w, Pow2(31), 31);
      PowBit(31, 31);
      ZeroBit(31);
    } else {
      AndSize(w, Pow2(31));
      forall k: nat | k < 32 ensures Bit(And(w, Pow2(31)), k) <==> Bit(0, k) {
        AndBit(w, Pow2(31), k);
        PowBit(31, k);
        ZeroBit(k);
      }
      SameBits(And(w, Pow2(31)), 0, 32);
    }
  }

  // ---- byte strings

  lemma {:induction false} StripKeeps(s: Bytes)
    ensures Decoded(Strip(s)) == Decoded(s) && (Strip(s) == [] || Strip(s)[0] != 0)
  {
    if s != [] && s[0] == 0 {
      StripKeeps(s[1..]);
      forall n: nat | n < 8 * |s| ensures n in Decoded(s) <==> n in Decoded(s[1..]) {
        if n / 8 == |s| - 1 {
          ZeroBit(n % 8);
        }
      }
    }
  }

  /** A byte string without leading zeros is determined by the set. */
  lemma DecodedUnique(a: Bytes, b: Bytes)
    requires Decoded(a) == Decoded(b) && (a == [] || a[0] != 0) && (b == [] || b[0] != 0)
    ensures a == b
  {
    FirstByteBit(a);
    FirstByteBit(b);
    assert |a| == |b|;
    forall i | 0 <= i < |a| ensures a[i] == b[i] {
      SameByte(a, b, i);
    }
  }

  lemma SameByte(a: Bytes, b: Bytes, i: nat)
    requires Decoded(a) == Decoded(b) && |a| == |b| && i < |a|
    ensures a[i] == b[i]
  {
    forall t: nat | t < 8 ensures Bit(a[i], t) <==> Bit(b[i], t) {
      var n := 8 * (|a| - 1 - i) + t;
      assert n in Decoded(a) <==> n in Decoded(b);
    }
    WordSize();
    SameBits(a[i], b[i], 8);
  }

  lemma FirstByteBit(s: Bytes)
    requires s == [] || s[0] != 0
    ensures s != [] ==> exists n: nat :: n in Decoded(s) && n / 8 == |s| - 1
  {
    if s != [] {
      WordSize();
      var h := HighestBit(s[0], 8);
      var n := 8 * (|s| - 1) + h;
      assert n in Decoded(s) && n / 8 == |s| - 1;
    }
  }

  /** The shortest byte string for a set starts with a byte that is not zero. */
  lemma ShortestIsStripped(s: Bytes, b: nat)
    requires IsWidth(Decoded(s), b) && |s| == (b + 7) / 8
    ensures s == [] || s[0] != 0
  {
    if s != [] {
      assert b - 1 in Decoded(s) && (b - 1) / 8 == |s| - 1;
      ZeroBit((b - 1) % 8);
    }
  }

  // ---- struct bitmap

  class BitVector {
    var d: array<U32>
    var top: nat

    ghost function Contents(): set<nat>
      reads this`d, d
    {
      Members(d[..])
    }

    ghost predicate Valid()
      reads this, d
    {
      && top < d.Length && (forall i :: top < i < d.Length ==> d[i] == 0)
      && forall n :: n in Contents() ==> n <= BITMAP_MAX
    }

    /** bitmap_new */
    constructor ()
      ensures Valid() && Contents() == {} && fresh(d)
    {
      d := new U32[1](_ => 0);
      top := 0;
      new;
      AllZero(d[..]);
    }

    /** bitmap_zero */
    method Zero()
      requires d.Length > 0
      modifies this`top, d
      ensures Valid() && Contents() == {} && forall i :: 0 <= i < d.Length ==> d[i] == 0
    {
      for i := 0 to d.Length
        modifies d
        invariant forall j :: 0 <= j < i ==> d[j] == 0
      {
        d[i] := 0;
      }
      top := 0;
      AllZero(d[..]);
    }

    /** bitmap_test_bit */
    method TestBit(n: U32) returns (r: bool)
      requires Valid()
      ensures r <==> n in Contents()
    {
      if n / 32 > top {
        if n / 32 < d.Length {
          ZeroWords(d[..], n);
        }
        return false;
      }
      ShrBit(d[n / 32], n % 32, 0);
      r := Shr(d[n / 32], n % 32) % 2 == 1;
    }

    /** reserve: room for bit n */
    method Reserve(n: U32) returns (ok: bool)
      requires Valid()
      modifies this`d
      ensures ok <==> n <= BITMAP_MAX
      ensures Valid() && Contents() == old(Contents()) && (d == old(d) || fresh(d))
      ensures ok ==> n / 32 < d.Length
      ensures !ok ==> d == old(d)
    {
      if n > BITMAP_MAX {
        return false;
      }
      var len := n / 32 + 1;
      if d.Length < len {
        var tmp := new U32[len](_ => 0);
        for i := 0 to d.Length
          modifies tmp
          invariant forall j :: 0 <= j < len ==> tmp[j] == if j < i then d[j] else 0
        {
          tmp[i] := d[i];
        }
        Extended(d[..], tmp[..]);
        d := tmp;
      }
      return true;
    }

    /** bitmap_set_bit */
    method SetBit(n: U32) returns (ok: bool)
      requires Valid()
      modifies this, d
      ensures Valid() && (d == old(d) || fresh(d))
      ensures ok <==> n <= BITMAP_MAX
      ensures Contents() == if ok then old(Contents()) + {n} else old(Contents())
    {
      ok := Reserve(n);
      if ok {
        var offset := n / 32;
        if offset > top {
          top := offset;
        }
        ghost var was := d[..];
        var w := SetInWord(d[offset], n % 32);
        d[offset] := w;
        SetMember(was, n, w);
        assert d[..] == was[offset := w];
      }
    }

    /** retop */
    method Retop()
      requires Valid()
      modifies this`top
      ensures Valid() && top <= old(top) && (top > 0 ==> d[top] != 0)
    {
      while top > 0 && d[top] == 0
        modifies this`top
        invariant Valid() && top <= old(top)
      {
        top := top - 1;
      }
    }

    /** bitmap_clear_bit */
    method ClearBit(n: U32)
      requires Valid()
      modifies this`top, d
      ensures Valid() && Contents() == old(Contents()) - {n}
    {
      if n <= BITMAP_MAX {
        var offset := n / 32;
        if offset <= top {
          WordSize();
          AndSize(d[offset], Not(Shl(1, n % 32), 32));
          var w: U32 := And(d[offset], Not(Shl(1, n % 32), 32));
          forall k: nat | k < 32 ensures Bit(w, k) <==> k != n % 32 && Bit(d[offset], k) {
            SetClearWord(d[offset], n % 32, k);
          }
          ClearMember(d[..], n, w);
          ghost var was := d[..];
          d[offset] := w;
          assert d[..] == was[offset := w];
          Retop();
        } else if offset < d.Length {
          ZeroWords(d[..], n);
        }
      }
    }

    /** bitmap_nbits */
    method NBits() returns (bits: nat)
      requires Valid()
      modifies this`top
      ensures Valid() && IsWidth(Contents(), bits) && bits <= 32 * (top + 1)
    {
      Retop();
      if top == 0 && d[0] == 0 {
        AllZero(d[..]);
        return 0;
      }
      var up := LeadingZeros(d[top]);
      bits := (top + 1) * 32 - up;
      TopWidth(d[..], top, 31 - up);
    }

    /** bitmap_nbytes */
    method NBytes() returns (need: nat)
      requires Valid()
      modifies this`top
      ensures Valid() && NeedsBytes(Contents(), need) && need <= 4 * (top + 1)
    {
      var bits := NBits();
      need := (bits + 7) / 8;
    }

    /** bitmap_to_string into a buffer of l bytes; `need` is bitmap_nbytes. */
    method ToString(p: array<Byte>) returns (ok: bool, need: nat)
      requires Valid() && (p as object) != d
      modifies this`top, p
      ensures Valid() && NeedsBytes(Contents(), need)
      ensures ok <==> need <= p.Length
      ensures ok ==> Decoded(p[..need]) == Contents() && p[need..] == old(p[need..])
      ensures !ok ==> p[..] == old(p[..])
    {
      need := NBytes();
      ok := need <= p.Length;
      if ok {
        BytesBackwards(p, need);
        BytesDecode(d[..], p[..need]);
      }
    }

    /** The loops of bitmap_to_string. */
    method BytesBackwards(p: array<Byte>, need: nat)
      requires top < d.Length && need <= 4 * (top + 1) && need <= p.Length && (p as object) != d
      modifies p
      ensures forall m :: 0 <= m < need ==> p[need - 1 - m] == ByteOf(d[..], m)
      ensures p[need..] == old(p[need..])
    {
      var i, k := 0, 0;
      while i < top + 1
        invariant 0 <= i <= top + 1 && k == (if 4 * i < need then 4 * i else need)
        invariant forall m :: 0 <= m < k ==> p[need - 1 - m] == ByteOf(d[..], m)
        invariant p[need..] == old(p[need..])
      {
        var j := 0;
        while j < 4 && k < need
          invariant 0 <= j <= 4 && k == (if 4 * i + j < need then 4 * i + j else need)
          invariant forall m :: 0 <= m < k ==> p[need - 1 - m] == ByteOf(d[..], m)
          invariant p[need..] == old(p[need..])
        {
          assert k / 4 == i && k % 4 == j;
          AndSize(Shr(d[i], 8 * j), 255);
          p[need - 1 - k] := And(Shr(d[i], 8 * j), 255);
          k := k + 1;
          j := j + 1;
        }
        i := i + 1;
      }
    }

    /** bitmap_from_string */
    method FromString(s: Bytes) returns (ok: bool)
      requires Valid()
      modifies this, d
      ensures Valid() && (d == old(d) || fresh(d))
      ensures ok <==> |s| <= BITMAP_MAX / 8
      ensures Contents() == if ok then Decoded(s) else old(Contents())
    {
      if |s| > BITMAP_MAX / 8 {
        return false;
      }
      ok := Reserve(|s| * 8);
      Zero();
      if s != [] {
        top := (|s| + 3) / 4 - 1;
        AddBytes(s);
        Retop();
      }
    }

    /** The loop of bitmap_from_string over a zeroed array. */
    method AddBytes(s: Bytes)
      requires s != [] && |s| <= 4 * d.Length && forall j :: 0 <= j < d.Length ==> d[j] == 0
      modifies d
      ensures Contents() == Decoded(s) && forall j :: (|s| + 3) / 4 <= j < d.Length ==> d[j] == 0
    {
      var offset, shift := (|s| + 3) / 4 - 1, (|s| + 3) % 4 * 8;
      AllZero(d[..]);
      for i := 0 to |s|
        invariant i < |s| ==> offset == (|s| - 1 - i) / 4 && shift == 8 * ((|s| - 1 - i) % 4)
        invariant Contents() == Tail(s, i)
        invariant forall j :: (|s| + 3) / 4 <= j < d.Length ==> d[j] == 0
      {
        WordSize();
        OrSize(d[offset], Shl(s[i], shift), 32);
        var w: U32 := Or(d[offset], Shl(s[i], shift));
        AddByte(d[..], s, i, w);
        ghost var was := d[..];
        d[offset] := w;
        assert d[..] == was[offset := w];
        if shift == 0 {
          offset, shift := offset - 1, 24;
        } else {
          shift := shift - 8;
        }
      }
    }
  }

  /** w | 1 << k */
  method SetInWord(w: U32, s: nat) returns (r: U32)
    requires s < 32
    ensures forall k: nat :: k < 32 ==> (Bit(r, k) <==> k == s || Bit(w, k))
  {
    WordSize();
    OrSize(w, Shl(1, s), 32);
    r := Or(w, Shl(1, s));
    forall k: nat | k < 32 ensures Bit(r, k) <==> k == s || Bit(w, k) {
      SetClearWord(w, s, k);
    }
  }

  /** The loop of bitmap_nbits: how far the highest bit is from the top of the word. */
  method LeadingZeros(word: U32) returns (up: nat)
    requires word != 0
    ensures up < 32 && Bit(word, 31 - up) && forall i: nat :: i > 31 - up ==> !Bit(word, i)
  {
    WordSize();
    ghost var h := HighestBit(word, 32);
    var w := word;
    up := 0;
    while And(w, Shl(1, 31)) == 0
      invariant up + h <= 31 && Bit(w, h + up)
      invariant forall i: nat :: h + up < i < 32 ==> !Bit(w, i)
      decreases 31 - h - up
    {
      SignBit(w);
      forall i: nat | i < 32 ensures Bit(Double(w), i) <==> i > 0 && Bit(w, i - 1) {
        DoubleBit(w, i);
      }
      w := Shl(w, 1);
      up := up + 1;
    }
    SignBit(w);
  }

  /** The bits of the first i bytes of s, at their final positions. */
  ghost function Tail(s: Bytes, i: nat): set<nat>
    requires i <= |s|
  {
    set n: nat | n < 8 * |s| && n / 8 >= |s| - i && Bit(s[|s| - 1 - n / 8], n % 8)
  }

  lemma BytesDecode(d: seq<U32>, p: Bytes)
    requires |p| <= 4 * |d| && forall m :: 0 <= m < |p| ==> p[|p| - 1 - m] == ByteOf(d, m)
    requires forall n :: n in Members(d) ==> n < 8 * |p|
    ensures Decoded(p) == Members(d)
  {
    forall n: nat | n < 8 * |p| ensures n in Decoded(p) <==> n in Members(d) {
      ByteOfMember(d, n);
    }
  }

  lemma AddByte(d: seq<U32>, s: Bytes, i: nat, w: U32)
    requires i < |s| <= 4 * |d| && Members(d) == Tail(s, i)
    requires var m := |s| - 1 - i; w == Or(d[m / 4], Shl(s[i], 8 * (m % 4)))
    ensures Members(d[(|s| - 1 - i) / 4 := w]) == Tail(s, i + 1)
  {
    var m := |s| - 1 - i;
    var e := d[m / 4 := w];
    forall n: nat | n < 32 * |d| ensures n in Members(e) <==> n in Tail(s, i + 1) {
      assert n in Members(d) <==> n in Tail(s, i);
      if n / 32 == m / 4 {
        ByteInWord(d[m / 4], s[i], m % 4, n % 32);
        InByte(n, m);
      }
    }
  }

  /** Byte k of a word, counted from below, or-ed with b. */
  lemma ByteInWord(x: U32, b: Byte, k: nat, t: nat)
    requires k < 4 && t < 32
    ensures Bit(Or(x, Shl(b, 8 * k)), t) <==> Bit(x, t) || (8 * k <= t < 8 * k + 8 && Bit(b, t - 8 * k))
  {
    OrBit(x, Shl(b, 8 * k), t);
    ShlBit(b, 8 * k, t);
    if t >= 8 * k + 8 {
      WordSize();
      HighBits(b, 8, t - 8 * k);
    }
  }

  lemma InByte(n: nat, m: nat)
    requires n / 32 == m / 4
    ensures var t, k := n % 32, m % 4; (8 * k <= t < 8 * k + 8 <==> n / 8 == m) && (n / 8 == m ==> t - 8 * k == n % 8)
  {
  }

  // ---- round trips

  /** bitmap_from_string after bitmap_to_string restores the set, exactly when it has at most 1<<24 bits. */
  method ExportImport(b: BitVector, c: BitVector) returns (ok: bool, bits: nat)
    requires b.Valid() && c.Valid() && b != c && b.d != c.d
    modifies b`top, c, c.d
    ensures IsWidth(b.Contents(), bits) && b.Contents() == old(b.Contents())
    ensures ok <==> bits <= BITMAP_MAX
    ensures ok ==> c.Contents() == b.Contents()
  {
    bits := b.NBits();
    var p := new Byte[(bits + 7) / 8];
    var done, need := b.ToString(p);
    WidthUnique(b.Contents(), bits);
    assert p[..need] == p[..];
    ok := c.FromString(p[..]);
  }

  /** Every bit that can be set survives the trip but the highest one, 1<<24. */
  method SetAndTrip(n: U32) returns (stored: bool, ok: bool)
    ensures stored <==> n <= 0x100_0000
    ensures stored ==> (ok <==> n < 0x100_0000)
  {
    var b := new BitVector();
    var c := new BitVector();
    stored := b.SetBit(n);
    ok := false;
    if stored {
      assert IsWidth(b.Contents(), n + 1);
      WidthUnique(b.Contents(), n + 1);
      var bits;
      ok, bits := ExportImport(b, c);
    }
  }

  lemma WidthUnique(s: set<nat>, a: nat)
    requires IsWidth(s, a)
    ensures forall b: nat :: IsWidth(s, b) ==> b == a
  {
  }

  /** bitmap_to_string after bitmap_from_string gives the bytes back without the leading zero ones. */
  method ImportExport(b: BitVector, s: Bytes) returns (ok: bool, r: Bytes)
    requires b.Valid()
    modifies b, b.d
    ensures ok <==> |s| <= BITMAP_MAX / 8
    ensures ok ==> r == Strip(s)
  {
    ok := b.FromString(s);
    r := [];
    if ok {
      var need := b.NBytes();
      var p := new Byte[need];
      var done, l := b.ToString(p);
      ghost var width: nat :| IsWidth(b.Contents(), width) && need == (width + 7) / 8;
      WidthUnique(b.Contents(), width);
      r := p[..];
      assert r == p[..l];
      ShortestIsStripped(r, width);
      StripKeeps(s);
      DecodedUnique(r, Strip(s));
    }
  }
}
