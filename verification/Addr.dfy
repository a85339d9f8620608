/** IPv4 and IPv6 address arithmetic (addr.c), against plain integers. */
module Addr {
  import opened Basics
  import opened Words

  const TWO_TO_96 := 0x1_0000_0000_0000_0000_0000_0000
  const TWO_TO_128 := 0x1_0000_0000_0000_0000_0000_0000_0000_0000

  datatype Family = Inet | Inet6 | Other

  /** addr32[4], each word in host order; an IPv4 address is the first word. */
  type Quad = w: seq<U32> | |w| == 4 witness [0, 0, 0, 0]

  datatype Value = Value(af: Family, w: Quad, scope: U32)

  function Width(af: Family): nat {
    match af case Inet => 32 case Inet6 => 128 case Other => 0
  }

  function Wide(w: Quad): nat {
    var a: int, b: int, c: int, d: int := w[0], w[1], w[2], w[3];
    a * TWO_TO_96 + b * TWO_TO_64 + c * TWO_TO_32 + d
  }

  /** The address as a number of Width(af) bits. */
  function Num(a: Value): nat {
    if a.af == Inet then a.w[0] else Wide(a.w)
  }

  /** masklen_valid */
  predicate ValidLen(af: Family, l: nat) { af != Other && l <= Width(af) }

  /** x with its m low bits cleared. */
  function Floor(x: nat, m: nat): nat {
    if m == 0 then x else 2 * Floor(x / 2, m - 1)
  }

  /** Where addr_cmp puts an address: IPv4 before IPv6, then by number, then by scope. */
  function Key(a: Value): int {
    if a.af == Inet then Num(a) else TWO_TO_32 + Num(a) * TWO_TO_32 + a.scope
  }

  /** The result of addr_netmatch is 0. */
  predicate InNet(h: Value, net: Value, l: nat) {
    && h.af == net.af && ValidLen(h.af, l)
    && Floor(Num(h), Width(h.af) - l) == Num(net) && (h.af == Inet6 ==> h.scope == net.scope)
  }

  /** The highest address of a network. */
  function Last(net: Value, l: nat): int
    requires ValidLen(net.af, l)
  {
    Floor(Num(net), Width(net.af) - l) + Pow2(Width(net.af) - l) - 1
  }

  // ---- arithmetic of masks

  lemma {:induction false} FloorRange(x: nat, net: nat, m: nat)
    ensures Floor(x, m) == net <==> Floor(net, m) == net && net <= x <= net + Pow2(m) - 1
  {
    if m > 0 {
      FloorRange(x / 2, net / 2, m - 1);
    }
  }

  lemma LowStep(m: nat)
    requires m > 0
    ensures Pow2(m) - 1 == Append(Pow2(m - 1) - 1, true)
  {
  }

  lemma {:induction false} AndLow(x: nat, m: nat)
    ensures And(x, Pow2(m) - 1) == x - Floor(x, m)
  {
    AndStep(x, Pow2(m) - 1);
    if m > 0 {
      AndLow(x / 2, m - 1);
      LowStep(m);
    }
  }

  lemma {:induction false} OrLow(x: nat, m: nat)
    ensures Or(x, Pow2(m) - 1) == Floor(x, m) + Pow2(m) - 1
  {
    if m > 0 {
      OrLow(x / 2, m - 1);
      OrStep(x, Pow2(m) - 1);
      LowStep(m);
    } else {
      OrZero(x);
    }
  }

  lemma {:induction false} OrZero(x: nat)
    ensures Or(x, 0) == x
  {
    if x > 0 {
      OrZero(x / 2);
    }
  }

  lemma AndStep(x: nat, y: nat)
    ensures And(x, y) == Append(And(x / 2, y / 2), x % 2 == 1 && y % 2 == 1)
  {
  }

  lemma OrStep(x: nat, y: nat)
    ensures Or(x, y) == Append(Or(x / 2, y / 2), x % 2 == 1 || y % 2 == 1)
  {
  }

  /** Masking with the n - m high bits of n clears the m low ones. */
  lemma {:induction false} AndMask(x: nat, n: nat, m: nat)
    requires m <= n && x < Pow2(n)
    ensures Pow2(m) <= Pow2(n) && And(x, Pow2(n) - Pow2(m)) == Floor(x, m)
  {
    PowMonotone(m, n);
    if m > 0 {
      AndMask(x / 2, n - 1, m - 1);
      AndStep(x, Pow2(n) - Pow2(m));
    } else {
      AndLow(x, n);
      FloorSmall(x, n);
    }
  }

  lemma {:induction false} FloorSmall(x: nat, n: nat)
    requires x < Pow2(n)
    ensures Floor(x, n) == 0
  {
    if n > 0 {
      FloorSmall(x / 2, n - 1);
    }
  }

  /** Ones down to bit k, shifted by s. */
  lemma {:induction false} ShlOnes(k: nat, s: nat)
    requires k + s < 32
    ensures Pow2(k) <= 0x8000_0000 && Pow2(k + s) <= 0x8000_0000
    ensures Shl(TWO_TO_32 - Pow2(k), s) == TWO_TO_32 - Pow2(k + s)
    decreases s
  {
    HalfPow(k);
    if s > 0 {
      HalfPow(k + 1);
      DoubleOnes(Pow2(k));
      ShlOnes(k + 1, s - 1);
    }
  }

  lemma HalfPow(k: nat)
    requires k < 32
    ensures Pow2(k) <= 0x8000_0000
  {
    WordSize();
    PowMonotone(k, 31);
  }

  lemma DoubleOnes(p: nat)
    requires 0 < p && 2 * p <= 0x8000_0000
    ensures Double(TWO_TO_32 - p) == TWO_TO_32 - 2 * p
  {
  }

  lemma WideSize(w: Quad)
    ensures Wide(w) < TWO_TO_128
  {
  }

  lemma {:induction false} PowPlus32(n: nat)
    ensures Pow2(n + 32) == TWO_TO_32 * Pow2(n)
  {
    WordSize();
    if n > 0 {
      PowPlus32(n - 1);
    }
  }

  lemma Powers()
    ensures Pow2(64) == TWO_TO_64 && Pow2(96) == TWO_TO_96 && Pow2(128) == TWO_TO_128
  {
    WordSize();
    PowPlus32(32);
    PowPlus32(64);
    PowPlus32(96);
  }

  lemma WidthPow(af: Family)
    ensures Pow2(Width(af)) == match af case Inet => TWO_TO_32 case Inet6 => TWO_TO_128 case Other => 1
  {
    WordSize();
    Powers();
  }

  lemma JoinStep(a: nat, b: nat, n: nat)
    requires n > 0
    ensures Join(a, b, n) == Append(Join(a, b / 2, n - 1), b % 2 == 1)
  {
  }

  lemma {:induction false} JoinAnd(a: nat, b: nat, c: nat, d: nat, n: nat)
    ensures And(Join(a, b, n), Join(c, d, n)) == Join(And(a, c), And(b, d), n)
  {
    if n > 0 {
      JoinAnd(a, b / 2, c, d / 2, n - 1);
      JoinStep(a, b, n);
      JoinStep(c, d, n);
      AndStep(Join(a, b, n), Join(c, d, n));
      AndStep(b, d);
      JoinStep(And(a, c), And(b, d), n);
    }
  }

  lemma {:induction false} JoinOr(a: nat, b: nat, c: nat, d: nat, n: nat)
    ensures Or(Join(a, b, n), Join(c, d, n)) == Join(Or(a, c), Or(b, d), n)
  {
    if n > 0 {
      JoinOr(a, b / 2, c, d / 2, n - 1);
      JoinStep(a, b, n);
      JoinStep(c, d, n);
      OrStep(Join(a, b, n), Join(c, d, n));
      OrStep(b, d);
      JoinStep(Or(a, c), Or(b, d), n);
    }
  }

  lemma WideJoin(w: Quad)
    ensures Wide(w) == Join(Join(Join(w[0], w[1], 32), w[2], 32), w[3], 32)
  {
    WordSize();
    JoinIs(w[0], w[1], 32);
    JoinIs(Join(w[0], w[1], 32), w[2], 32);
    JoinIs(Join(Join(w[0], w[1], 32), w[2], 32), w[3], 32);
  }

  /** Word by word is the same as on the whole number. */
  lemma WideAnd(a: Quad, b: Quad, c: Quad)
    requires forall i :: 0 <= i < 4 ==> c[i] == And(a[i], b[i])
    ensures Wide(c) == And(Wide(a), Wide(b))
  {
    WideJoin(a);
    WideJoin(b);
    WideJoin(c);
    JoinAnd(a[0], a[1], b[0], b[1], 32);
    JoinAnd(Join(a[0], a[1], 32), a[2], Join(b[0], b[1], 32), b[2], 32);
    JoinAnd(Join(Join(a[0], a[1], 32), a[2], 32), a[3], Join(Join(b[0], b[1], 32), b[2], 32), b[3], 32);
  }

  lemma WideOr(a: Quad, b: Quad, c: Quad)
    requires forall i :: 0 <= i < 4 ==> c[i] == Or(a[i], b[i])
    ensures Wide(c) == Or(Wide(a), Wide(b))
  {
    WideJoin(a);
    WideJoin(b);
    WideJoin(c);
    JoinOr(a[0], a[1], b[0], b[1], 32);
    JoinOr(Join(a[0], a[1], 32), a[2], Join(b[0], b[1], 32), b[2], 32);
    JoinOr(Join(Join(a[0], a[1], 32), a[2], 32), a[3], Join(Join(b[0], b[1], 32), b[2], 32), b[3], 32);
  }

  lemma OrWord(a: U32, b: U32)
    ensures Or(a, b) < TWO_TO_32
  {
    WordSize();
    OrSize(a, b, 32);
  }

  const ONES: U32 := 0xffff_ffff

  /** A word with its r high bits set. */
  function PartWord(r: nat): U32
    requires r <= 32
  {
    if r > 0 then Shl(ONES, 32 - r) else 0
  }

  lemma PartIs(r: nat)
    requires r <= 32
    ensures PartWord(r) == TWO_TO_32 - Pow2(32 - r)
  {
    if r > 0 {
      ShlOnes(0, 32 - r);
    } else {
      WordSize();
    }
  }

  lemma PowDown(r: nat)
    requires r < 32
    ensures var t := Pow2(32 - r);
      Pow2(64 - r) == TWO_TO_32 * t && Pow2(96 - r) == TWO_TO_64 * t && Pow2(128 - r) == TWO_TO_96 * t
  {
    PowPlus32(32 - r);
    PowPlus32(64 - r);
    PowPlus32(96 - r);
  }

  /** The words of an IPv6 netmask with q full words and r more bits. */
  lemma WideMask(w: Quad, q: nat, r: nat)
    requires 32 * q + r <= 128 && r < 32
    requires forall i :: 0 <= i < 4 ==> w[i] == if i < q then ONES else if i == q then PartWord(r) else 0
    ensures Wide(w) == TWO_TO_128 - Pow2(128 - (32 * q + r))
  {
    PartIs(r);
    PowDown(r);
    if q == 0 {
    } else if q == 1 {
      assert 128 - (32 + r) == 96 - r;
    } else if q == 2 {
      assert 128 - (64 + r) == 64 - r;
    } else if q == 3 {
      assert 128 - (96 + r) == 32 - r;
    }
  }

  // ---- comparing

  /** addr8[i] of an address */
  function AddrByte(w: Quad, i: nat): Byte
    requires i < 16
  {
    Octet(w[i / 4], 3 - i % 4)
  }

  lemma {:induction false} SameDigits(x: nat, y: nat, n: nat)
    requires x < Pow256(n) && y < Pow256(n) && forall k: nat :: k < n ==> Octet(x, k) == Octet(y, k)
    ensures x == y
  {
    if n > 0 {
      forall k: nat | k < n - 1 ensures Octet(x / 256, k) == Octet(y / 256, k) {
        assert Octet(x, k + 1) == Octet(y, k + 1);
      }
      SameDigits(x / 256, y / 256, n - 1);
      assert Octet(x, 0) == Octet(y, 0);
    }
  }

  /** The highest digit that differs decides. */
  lemma {:induction false} FirstDigit(x: nat, y: nat, n: nat, k: nat)
    requires x < Pow256(n) && y < Pow256(n) && k < n
    requires Octet(x, k) < Octet(y, k) && forall j: nat :: k < j < n ==> Octet(x, j) == Octet(y, j)
    ensures x < y
  {
    forall j: nat | k <= j < n - 1 ensures Octet(x / 256, j) == Octet(y / 256, j) {
      assert Octet(x, j + 1) == Octet(y, j + 1);
    }
    if k == 0 {
      SameDigits(x / 256, y / 256, n - 1);
    } else {
      FirstDigit(x / 256, y / 256, n - 1, k - 1);
    }
  }

  lemma WordDigits(x: U32)
    ensures x < Pow256(4)
  {
    assert Pow256(2) == 0x1_0000;
  }

  lemma SameWord(a: Quad, b: Quad, i: nat)
    requires i < 4 && forall j: nat :: 4 * i <= j < 4 * i + 4 ==> AddrByte(a, j) == AddrByte(b, j)
    ensures a[i] == b[i]
  {
    WordDigits(a[i]);
    WordDigits(b[i]);
    forall k: nat | k < 4 ensures Octet(a[i], k) == Octet(b[i], k) {
      assert AddrByte(a, 4 * i + (3 - k)) == AddrByte(b, 4 * i + (3 - k));
    }
    SameDigits(a[i], b[i], 4);
  }

  lemma FirstWord(a: Quad, b: Quad, q: nat)
    requires q < 4 && a[q] < b[q] && forall k :: 0 <= k < q ==> a[k] == b[k]
    ensures Wide(a) < Wide(b)
  {
  }

  /** The first octet that differs decides. */
  lemma FirstByte(a: Quad, b: Quad, i: nat)
    requires i < 16 && AddrByte(a, i) < AddrByte(b, i) && forall j: nat :: j < i ==> AddrByte(a, j) == AddrByte(b, j)
    ensures Wide(a) < Wide(b)
  {
    var q := i / 4;
    forall k | 0 <= k < q ensures a[k] == b[k] {
      SameWord(a, b, k);
    }
    WordDigits(a[q]);
    WordDigits(b[q]);
    forall k: nat | 3 - i % 4 < k < 4 ensures Octet(a[q], k) == Octet(b[q], k) {
      assert AddrByte(a, 4 * q + (3 - k)) == AddrByte(b, 4 * q + (3 - k));
    }
    FirstDigit(a[q], b[q], 4, 3 - i % 4);
    FirstWord(a, b, q);
  }

  // ---- struct xaddr

  class XAddr {
    var af: Family
    var w: Quad
    var scope: U32

    function View(): Value
      reads this
    {
      Value(af, w, scope)
    }

    constructor (a: Value)
      ensures View() == a
    {
      af, w, scope := a.af, a.w, a.scope;
    }

    /** addr_netmask, on failure leaving the mask alone */
    method Netmask(family: Family, l: U32) returns (ok: bool)
      modifies this
      ensures ok <==> ValidLen(family, l)
      ensures ok ==> af == family && scope == 0 && Num(View()) == Pow2(Width(af)) - Pow2(Width(af) - l)
      ensures !ok ==> View() == old(View())
    {
      ok := ValidLen(family, l);
      if ok {
        af, w, scope := family, [0, 0, 0, 0], 0;
        WidthPow(family);
        if family == Inet {
          MaskWord(l);
        } else {
          MaskWords(l);
        }
      }
    }

    /** The IPv4 word of addr_netmask. */
    method MaskWord(l: U32)
      requires l <= 32 && w == [0, 0, 0, 0]
      modifies this`w
      ensures w[0] == TWO_TO_32 - Pow2(32 - l)
    {
      PartIs(l);
      if l != 0 {
        w := w[0 := Shl(ONES, 32 - l)];
      }
    }

    /** The IPv6 loop of addr_netmask. */
    method MaskWords(l: U32)
      requires l <= 128 && w == [0, 0, 0, 0]
      modifies this`w
      ensures Wide(w) == TWO_TO_128 - Pow2(128 - l)
    {
      var i, left := 0, l;
      while i < 4 && left >= 32
        invariant 0 <= i <= 4 && left == l - 32 * i
        invariant forall k :: 0 <= k < 4 ==> w[k] == if k < i then ONES else 0
      {
        w := w[i := ONES];
        i, left := i + 1, left - 32;
      }
      if i < 4 && left != 0 {
        w := w[i := Shl(ONES, 32 - left)];
      }
      WideMask(w, i, left);
    }

    /** addr_invert */
    method Invert() returns (ok: bool)
      modifies this`w
      ensures ok <==> af != Other
      ensures ok ==> Num(View()) == Pow2(Width(af)) - 1 - old(Num(View()))
      ensures !ok ==> w == old(w)
    {
      ok := af != Other;
      WidthPow(af);
      if af == Inet {
        w := w[0 := ONES - w[0]];
      } else if af == Inet6 {
        InvertWords();
      }
    }

    method InvertWords()
      modifies this`w
      ensures Wide(w) == TWO_TO_128 - 1 - old(Wide(w))
    {
      ghost var was := w;
      for i := 0 to 4
        invariant forall k :: 0 <= k < 4 ==> w[k] == if k < i then ONES - was[k] else was[k]
      {
        w := w[i := ONES - w[i]];
      }
    }

    /** addr_hostmask */
    method Hostmask(family: Family, l: U32) returns (ok: bool)
      modifies this
      ensures ok <==> ValidLen(family, l)
      ensures ok ==> af == family && scope == 0 && Num(View()) == Pow2(Width(af) - l) - 1
    {
      ok := Netmask(family, l);
      if ok {
        ok := Invert();
      }
    }

    /**
     addr_and: this becomes a & b. The destination may be the first operand; if it is the second, that has been
     overwritten by the first before it is read, and the result is a.
     */
    method SetAnd(a: XAddr, b: XAddr) returns (ok: bool)
      modifies this
      ensures ok <==> old(a.af == b.af && a.af != Other)
      ensures ok ==> af == old(a.af) && scope == old(a.scope)
      ensures ok ==> Num(View()) == if this == b then old(Num(a.View())) else And(old(Num(a.View())), old(Num(b.View())))
      ensures old(a.af != b.af) ==> View() == old(View())
    {
      if a.af != b.af {
        return false;
      }
      af, w, scope := a.af, a.w, a.scope;
      ok := af != Other;
      AndSelf(Num(View()));
      if af == Inet {
        AndSize(w[0], b.w[0]);
        w := w[0 := And(w[0], b.w[0])];
      } else if af == Inet6 {
        AndWords(b);
      }
    }

    method AndWords(b: XAddr)
      modifies this`w
      ensures Wide(w) == And(old(Wide(w)), old(Wide(b.w)))
    {
      ghost var x, y := w, b.w;
      for i := 0 to 4
        invariant b != this ==> b.w == y
        invariant forall k :: 0 <= k < 4 ==> w[k] == if k < i then And(x[k], y[k]) else x[k]
      {
        AndSize(x[i], y[i]);
        w := w[i := And(w[i], b.w[i])];
      }
      WideAnd(x, y, w);
    }

    /** addr_or, which treats a destination that is the second operand likewise. */
    method SetOr(a: XAddr, b: XAddr) returns (ok: bool)
      modifies this
      ensures ok <==> old(a.af == b.af && a.af != Other)
      ensures ok ==> af == old(a.af) && scope == old(a.scope)
      ensures ok ==> Num(View()) == if this == b then old(Num(a.View())) else Or(old(Num(a.View())), old(Num(b.View())))
      ensures old(a.af != b.af) ==> View() == old(View())
    {
      if a.af != b.af {
        return false;
      }
      af, w, scope := a.af, a.w, a.scope;
      ok := af != Other;
      OrSelf(Num(View()));
      if af == Inet {
        OrWord(w[0], b.w[0]);
        w := w[0 := Or(w[0], b.w[0])];
      } else if af == Inet6 {
        OrWords(b);
      }
    }

    method OrWords(b: XAddr)
      modifies this`w
      ensures Wide(w) == Or(old(Wide(w)), old(Wide(b.w)))
    {
      ghost var x, y := w, b.w;
      for i := 0 to 4
        invariant b != this ==> b.w == y
        invariant forall k :: 0 <= k < 4 ==> w[k] == if k < i then Or(x[k], y[k]) else x[k]
      {
        OrWord(x[i], y[i]);
        w := w[i := Or(w[i], b.w[i])];
      }
      WideOr(x, y, w);
    }

    /** addr_cmp */
    method Cmp(b: XAddr) returns (r: int)
      ensures af != Other && b.af != Other ==> (r < 0 <==> Key(View()) < Key(b.View()))
      ensures af != Other && b.af != Other ==> (r == 0 <==> Key(View()) == Key(b.View()))
      ensures af != b.af ==> r == if af == Inet6 then 1 else -1
      ensures af == b.af == Other ==> r == -1
    {
      if af != b.af {
        return if af == Inet6 then 1 else -1;
      }
      if af == Other {
        return -1;
      }
      if af == Inet {
        return if w[0] == b.w[0] then 0 else if w[0] > b.w[0] then 1 else -1;
      }
      for i := 0 to 16
        invariant forall j: nat :: j < i ==> AddrByte(w, j) == AddrByte(b.w, j)
      {
        if AddrByte(w, i) != AddrByte(b.w, i) {
          if AddrByte(w, i) < AddrByte(b.w, i) {
            FirstByte(w, b.w, i);
          } else {
            FirstByte(b.w, w, i);
          }
          return AddrByte(w, i) as int - AddrByte(b.w, i) as int;
        }
      }
      forall k: nat | k < 4 ensures w[k] == b.w[k] {
        SameWord(w, b.w, k);
      }
      r := if scope == b.scope then 0 else if scope > b.scope then 1 else -1;
    }

    /** addr_is_all0s */
    method IsAllZeros() returns (r: bool)
      ensures r <==> af != Other && Num(View()) == 0
    {
      if af == Inet {
        return w[0] == 0;
      } else if af == Inet6 {
        for i := 0 to 4
          invariant forall k :: 0 <= k < i ==> w[k] == 0
        {
          if w[i] != 0 {
            return false;
          }
        }
        return true;
      }
      return false;
    }

    /** The carry loop of addr_increment. */
    method IncrementWords()
      modifies this`w
      ensures Wide(w) == (if old(Wide(w)) == TWO_TO_128 - 1 then 0 else old(Wide(w)) + 1)
    {
      ghost var was := w;
      var i := 0;
      var carry := true;
      while i < 4 && carry
        invariant 0 <= i <= 4
        invariant carry ==> forall k :: 0 <= k < 4 ==> w[k] == (if k > 3 - i then 0 else was[k])
        invariant carry ==> forall k :: 4 - i <= k < 4 ==> was[k] == ONES
        invariant !carry ==> Wide(w) == Wide(was) + 1 && Wide(was) != TWO_TO_128 - 1
      {
        var n: U32 := if w[3 - i] == ONES then 0 else w[3 - i] + 1;
        w := w[3 - i := n];
        carry := n == 0;
        i := i + 1;
      }
    }

    /** addr_increment */
    method Increment()
      modifies this`w
      ensures af != Other ==> Num(View()) == (if old(Num(View())) == Pow2(Width(af)) - 1 then 0 else old(Num(View())) + 1)
      ensures af == Other ==> w == old(w)
    {
      WidthPow(af);
      if af == Inet {
        w := w[0 := if w[0] == ONES then 0 else w[0] + 1];
      } else if af == Inet6 {
        IncrementWords();
      }
    }
  }

  /** The host bits of an address, as addr_host_is_all0s computes them. */
  method HostBits(a: XAddr, l: U32) returns (ok: bool, masked: XAddr)
    ensures ok <==> ValidLen(a.af, l)
    ensures fresh(masked)
    ensures ok ==> masked.af == a.af && Num(masked.View()) == Num(a.View()) - Floor(Num(a.View()), Width(a.af) - l)
  {
    var mask := new XAddr(a.View());
    masked := new XAddr(a.View());
    ok := mask.Hostmask(a.af, l);
    if ok {
      MaskLow(Num(a.View()), Num(mask.View()), Width(a.af) - l);
      ok := masked.SetAnd(a, mask);
    }
  }

  lemma MaskLow(x: nat, mask: nat, m: nat)
    requires mask == Pow2(m) - 1
    ensures And(x, mask) == x - Floor(x, m) && Or(x, mask) == Floor(x, m) + Pow2(m) - 1
  {
    AndLow(x, m);
    OrLow(x, m);
  }

  /** addr_host_is_all0s */
  method HostIsAllZeros(a: XAddr, l: U32) returns (r: bool)
    ensures r <==> ValidLen(a.af, l) && Floor(Num(a.View()), Width(a.af) - l) == Num(a.View())
  {
    var ok, masked := HostBits(a, l);
    if !ok {
      return false;
    }
    r := masked.IsAllZeros();
  }

  /** addr_host_to_all1s, in place */
  method HostToAllOnes(a: XAddr, l: U32) returns (ok: bool)
    modifies a
    ensures ok <==> old(ValidLen(a.af, l))
    ensures ok ==> a.af == old(a.af) && a.scope == old(a.scope) && Num(a.View()) == Last(old(a.View()), l)
    ensures !ok ==> a.View() == old(a.View())
  {
    var mask := new XAddr(a.View());
    ok := mask.Hostmask(a.af, l);
    if ok {
      MaskLow(Num(a.View()), Num(mask.View()), Width(a.af) - l);
      ok := a.SetOr(a, mask);
    }
  }

  /** The address without its host bits, as addr_netmatch computes it. */
  method Network(host: XAddr, l: U32) returns (ok: bool, masked: XAddr)
    ensures ok <==> ValidLen(host.af, l)
    ensures fresh(masked)
    ensures ok ==> masked.af == host.af && masked.scope == host.scope
    ensures ok ==> Num(masked.View()) == Floor(Num(host.View()), Width(host.af) - l)
  {
    var mask := new XAddr(host.View());
    masked := new XAddr(host.View());
    ok := mask.Netmask(host.af, l);
    if ok {
      MaskHigh(host.View(), l, Num(mask.View()));
      ok := masked.SetAnd(host, mask);
    }
  }

  lemma MaskHigh(a: Value, l: nat, mask: nat)
    requires ValidLen(a.af, l) && mask == Pow2(Width(a.af)) - Pow2(Width(a.af) - l)
    ensures And(Num(a), mask) == Floor(Num(a), Width(a.af) - l)
  {
    NumSize(a);
    AndMask(Num(a), Width(a.af), Width(a.af) - l);
  }

  /** addr_netmatch */
  method Netmatch(host: XAddr, net: XAddr, l: U32) returns (r: int)
    ensures r == 0 <==> InNet(host.View(), net.View(), l)
  {
    if host.af != net.af {
      return -1;
    }
    var ok, masked := Network(host, l);
    if !ok {
      return -1;
    }
    SameKey(masked.View(), net.View());
    r := masked.Cmp(net);
  }

  /** Into the second operand addr_and stores a: the conjunction exactly if a has no bit that b lacks. */
  method AndIntoSecond(a: XAddr, b: XAddr) returns (r: nat)
    requires a.af == b.af != Other
    modifies b
    ensures r == old(Num(a.View()))
    ensures r == And(old(Num(a.View())), old(Num(b.View()))) <==>
      forall k: nat :: Bit(old(Num(a.View())), k) ==> Bit(old(Num(b.View())), k)
  {
    AndIsFirst(Num(a.View()), Num(b.View()));
    var ok := b.SetAnd(a, b);
    r := Num(b.View());
  }

  /** addr_or likewise: the disjunction exactly if b has no bit that a lacks. */
  method OrIntoSecond(a: XAddr, b: XAddr) returns (r: nat)
    requires a.af == b.af != Other
    modifies b
    ensures r == old(Num(a.View()))
    ensures r == Or(old(Num(a.View())), old(Num(b.View()))) <==>
      forall k: nat :: Bit(old(Num(b.View())), k) ==> Bit(old(Num(a.View())), k)
  {
    OrIsFirst(Num(a.View()), Num(b.View()));
    var ok := b.SetOr(a, b);
    r := Num(b.View());
  }

  /** The IPv4 addresses 3 and 1: stored into the second, addr_and gives 3, where the conjunction is 1. */
  method ThreeAndOne() returns (r: nat)
    ensures r == 3 && And(3, 1) == 1
  {
    var three := new XAddr(Value(Inet, [3, 0, 0, 0], 0));
    var one := new XAddr(Value(Inet, [1, 0, 0, 0], 0));
    r := AndIntoSecond(three, one);
  }

  lemma SameKey(a: Value, b: Value)
    requires a.af == b.af
    ensures Key(a) == Key(b) <==> Num(a) == Num(b) && (a.af != Inet ==> a.scope == b.scope)
  {
  }

  /** addr_cmp gives 0 only for the same address: same family and number, and for IPv6 the same scope. */
  lemma KeyIdentifies(a: Value, b: Value)
    requires a.af != Other && b.af != Other && Key(a) == Key(b)
    ensures a.af == b.af && (a.af == Inet ==> a.w[0] == b.w[0]) && (a.af == Inet6 ==> a.w == b.w && a.scope == b.scope)
  {
    if a.af == b.af {
      SameKey(a, b);
      if a.af == Inet6 {
        WideWords(a.w, b.w);
      }
    }
  }

  lemma LastWord(a: U32, x: int, b: U32, y: int)
    requires a + TWO_TO_32 * x == b + TWO_TO_32 * y
    ensures a == b && x == y
  {
  }

  lemma WideWords(v: Quad, w: Quad)
    requires Wide(v) == Wide(w)
    ensures v == w
  {
    var v0: int, v1: int, v2: int := v[0], v[1], v[2];
    var w0: int, w1: int, w2: int := w[0], w[1], w[2];
    LastWord(v[3], v2 + TWO_TO_32 * v1 + TWO_TO_64 * v0, w[3], w2 + TWO_TO_32 * w1 + TWO_TO_64 * w0);
    LastWord(v[2], v1 + TWO_TO_32 * v0, w[2], w1 + TWO_TO_32 * w0);
    LastWord(v[1], v0, w[1], w0);
  }

  lemma NumSize(a: Value)
    ensures a.af != Other ==> Num(a) < Pow2(Width(a.af))
  {
    WidthPow(a.af);
    WideSize(a.w);
  }

  /**
   An address matches a network exactly when the network has no host bits set, the scopes agree, and addr_cmp puts
   the address between the network and its highest address.
   */
  lemma MatchIsRange(h: Value, net: Value, top: Value, l: nat)
    requires h.af == net.af && ValidLen(net.af, l)
    requires top.af == net.af && top.scope == net.scope && Num(top) == Last(net, l)
    ensures InNet(h, net, l) <==>
      && Floor(Num(net), Width(net.af) - l) == Num(net) && (h.af == Inet6 ==> h.scope == net.scope)
      && Key(net) <= Key(h) <= Key(top)
  {
    FloorRange(Num(h), Num(net), Width(net.af) - l);
  }

  /** With the whole width as length, an address matches itself and no other; with length 0, all of the family match. */
  lemma WholeAndNone(h: Value, net: Value, l: nat)
    requires h.af == net.af && h.af != Other && l == if h.af == Inet then 32 else 128
    ensures InNet(h, net, l) <==> Key(h) == Key(net)
    ensures Num(net) == 0 && h.scope == net.scope ==> InNet(h, net, 0)
    ensures !InNet(h, net, l + 1)
  {
    NumSize(h);
    FloorSmall(Num(h), Width(h.af));
    SameKey(h, net);
  }
}
