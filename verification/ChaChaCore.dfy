/** The ChaCha20 block function of chacha.c: twenty rounds over sixteen words, added to the words they started from. */
module ChaChaCore {
  import opened Basics
  import opened Words

  type State = s: seq<U32> | |s| == 16 witness [0, 0, 0, 0, 0, 0, 0, 0, 0, 0, 0, 0, 0, 0, 0, 0]

  function Plus(a: U32, b: U32): U32 {
    if a + b < TWO_TO_32 then a + b else a + b - TWO_TO_32
  }

  function Minus(a: U32, b: U32): U32 {
    if a >= b then a - b else a + TWO_TO_32 - b
  }

  function XorWord(a: U32, b: U32): U32 {
    WordSize();
    XorSize(a, b, 32);
    Xor(a, b)
  }

  function Rotate(v: U32, n: nat): U32
    requires 0 < n < 32
  {
    WordSize();
    ShrSize(v, 32 - n);
    OrSize(Shl(v, n), Shr(v, 32 - n), 32);
    Or(Shl(v, n), Shr(v, 32 - n))
  }

  datatype Four = Four(a: U32, b: U32, c: U32, d: U32)

  /** One line of QUARTERROUND: a += b, d = (d ^ a) <<< n. */
  function Half(a: U32, b: U32, d: U32, n: nat): (U32, U32)
    requires 0 < n < 32
  {
    (Plus(a, b), Rotate(XorWord(d, Plus(a, b)), n))
  }

  function Quarter(q: Four): Four {
    var (a1, d1) := Half(q.a, q.b, q.d, 16);
    var (c1, b1) := Half(q.c, d1, q.b, 12);
    var (a2, d2) := Half(a1, b1, d1, 8);
    var (c2, b2) := Half(c1, d2, b1, 7);
    Four(a2, b2, c2, d2)
  }

  /** A quarter round f on words a, b, c and d of the state. */
  function On(f: Four -> Four, x: State, a: nat, b: nat, c: nat, d: nat): State
    requires a < 4 <= b < 8 <= c < 12 <= d < 16
  {
    var q := f(Four(x[a], x[b], x[c], x[d]));
    x[a := q.a][b := q.b][c := q.c][d := q.d]
  }

  function ColumnRound(f: Four -> Four, x: State): State {
    On(f, On(f, On(f, On(f, x, 0, 4, 8, 12), 1, 5, 9, 13), 2, 6, 10, 14), 3, 7, 11, 15)
  }

  function DiagonalRound(f: Four -> Four, x: State): State {
    On(f, On(f, On(f, On(f, x, 0, 5, 10, 15), 1, 6, 11, 12), 2, 7, 8, 13), 3, 4, 9, 14)
  }

  function DoubleRound(x: State): State { DiagonalRound(Quarter, ColumnRound(Quarter, x)) }

  function Iterate(r: State -> State, x: State, n: nat): State {
    if n == 0 then x else r(Iterate(r, x, n - 1))
  }

  const ROUNDS: nat := 20

  /** The twenty rounds. */
  function Rounds(x: State): State { Iterate(DoubleRound, x, ROUNDS / 2) }

  /** Byte i (of 64) of the sum of a state and what `rounds` makes of it, little-endian. */
  function SumByte(rounds: State -> State, s: State, i: nat): Byte {
    var k := i / 4 % 16;
    Octet(Plus(rounds(s)[k], s[k]), i % 4)
  }

  /** Byte i (of 64) of the keystream block of a state. */
  function Block(s: State, i: nat): Byte { SumByte(Rounds, s, i) }

  // ---- the rounds in place

  function HalfOn(x: State, a: nat, b: nat, d: nat, n: nat): State
    requires a < 16 && b < 16 && d < 16 && 0 < n < 32
  {
    var (a1, d1) := Half(x[a], x[b], x[d], n);
    x[a := a1][d := d1]
  }

  lemma FourHalves(x: State, a: nat, b: nat, c: nat, d: nat)
    requires a < 4 <= b < 8 <= c < 12 <= d < 16
    ensures HalfOn(HalfOn(HalfOn(HalfOn(x, a, b, d, 16), c, d, b, 12), a, b, d, 8), c, d, b, 7) == On(Quarter, x, a, b, c, d)
  {
  }

  /** One line of QUARTERROUND */
  method HalfInPlace(x: array<U32>, a: nat, b: nat, d: nat, n: nat)
    requires x.Length == 16 && a < 16 && b < 16 && d < 16 && a != d && 0 < n < 32
    modifies x
    ensures x[..] == HalfOn(old(x[..]), a, b, d, n)
  {
    x[a] := Plus(x[a], x[b]);
    x[d] := Rotate(XorWord(x[d], x[a]), n);
  }

  method QuarterRound(x: array<U32>, a: nat, b: nat, c: nat, d: nat)
    requires x.Length == 16 && a < 4 <= b < 8 <= c < 12 <= d < 16
    modifies x
    ensures x[..] == On(Quarter, old(x[..]), a, b, c, d)
  {
    FourHalves(x[..], a, b, c, d);
    HalfInPlace(x, a, b, d, 16);
    HalfInPlace(x, c, d, b, 12);
    HalfInPlace(x, a, b, d, 8);
    HalfInPlace(x, c, d, b, 7);
  }

  method TwoRounds(x: array<U32>)
    requires x.Length == 16
    modifies x
    ensures x[..] == DoubleRound(old(x[..]))
  {
    QuarterRound(x, 0, 4, 8, 12);
    QuarterRound(x, 1, 5, 9, 13);
    QuarterRound(x, 2, 6, 10, 14);
    QuarterRound(x, 3, 7, 11, 15);
    QuarterRound(x, 0, 5, 10, 15);
    QuarterRound(x, 1, 6, 11, 12);
    QuarterRound(x, 2, 7, 8, 13);
    QuarterRound(x, 3, 4, 9, 14);
  }

  predicate Asked(x: State) { true }

  /** r is DoubleRound; spelled out only for the states that are asked about. */
  ghost predicate IsDoubleRound(r: State -> State) {
    forall x: State {:trigger Asked(x)} :: Asked(x) ==> r(x) == DoubleRound(x)
  }

  method Turn(x: array<U32>, ghost r: State -> State)
    requires x.Length == 16 && IsDoubleRound(r)
    modifies x
    ensures x[..] == r(old(x[..]))
  {
    assert Asked(x[..]);
    TwoRounds(x);
  }

  /** The loop over the rounds in chacha_encrypt_bytes, two at a time. */
  method RoundLoop(x: array<U32>, ghost r: State -> State, rounds: nat)
    requires x.Length == 16 && rounds % 2 == 0 && IsDoubleRound(r)
    modifies x
    ensures x[..] == Iterate(r, old(x[..]), rounds / 2)
  {
    ghost var j: State, n: nat := x[..], 0;
    var i := rounds;
    while i > 0
      invariant 0 <= i <= rounds && i == rounds - 2 * n && x[..] == Iterate(r, j, n)
    {
      Turn(x, r);
      i, n := i - 2, n + 1;
    }
  }

  /** `rounds` are the twenty rounds; spelled out only for the states that are asked about. */
  ghost predicate IsRounds(rounds: State -> State) {
    forall x: State {:trigger Asked(x)} :: Asked(x) ==> rounds(x) == Rounds(x)
  }

  method TwentyRounds(x: array<U32>, ghost rounds: State -> State)
    requires x.Length == 16 && IsRounds(rounds)
    modifies x
    ensures x[..] == rounds(old(x[..]))
  {
    assert Asked(x[..]);
    RoundLoop(x, DoubleRound, ROUNDS);
  }

  lemma {:induction false} ShrSize(a: nat, s: nat)
    ensures Shr(a, s) <= a
  {
    if s > 0 {
      ShrSize(a / 2, s - 1);
    }
  }

  // ---- the rounds are a permutation

  lemma RotateBit(v: U32, n: nat, k: nat)
    requires 0 < n < 32 && k < 32
    ensures Bit(Rotate(v, n), k) <==> Bit(v, if k >= n then k - n else k + 32 - n)
  {
    OrBit(Shl(v, n), Shr(v, 32 - n), k);
    ShlBit(v, n, k);
    ShrBit(v, 32 - n, k);
    if k >= n {
      WordSize();
      HighBits(v, 32, k + 32 - n);
    }
  }

  lemma RotateBack(v: U32, n: nat)
    requires 0 < n < 32
    ensures Rotate(Rotate(v, n), 32 - n) == v
  {
    var w := Rotate(v, n);
    var u := Rotate(w, 32 - n);
    forall k: nat | k < 32 ensures Bit(u, k) <==> Bit(v, k) {
      var l := if k >= 32 - n then k - (32 - n) else k + n;
      RotateBit(w, 32 - n, k);
      RotateBit(v, n, l);
    }
    WordSize();
    SameBits(u, v, 32);
  }

  /** A rotation exchanges the high and the low part of a word. */
  lemma RotateIs(v: U32, n: nat, high: nat, low: nat)
    requires 0 < n < 32 && high < Pow2(n) && low < Pow2(32 - n) && v == high * Pow2(32 - n) + low
    ensures Rotate(v, n) == low * Pow2(n) + high
  {
    JoinIs(high, low, 32 - n);
    JoinIs(low, high, n);
    forall k: nat | k < 32 ensures Bit(Rotate(v, n), k) <==> Bit(Join(low, high, n), k) {
      RotateBit(v, n, k);
      JoinBit(high, low, 32 - n, if k >= n then k - n else k + 32 - n);
      JoinBit(low, high, n, k);
    }
    WordSize();
    JoinSize(low, high, n, 32 - n);
    SameBits(Rotate(v, n), Join(low, high, n), 32);
  }

  function Unhalf(a: U32, b: U32, d: U32, n: nat): (U32, U32)
    requires 0 < n < 32
  {
    (Minus(a, b), XorWord(Rotate(d, 32 - n), a))
  }

  lemma HalfBack(a: U32, b: U32, d: U32, n: nat)
    requires 0 < n < 32
    ensures var (a1, d1) := Half(a, b, d, n); Unhalf(a1, b, d1, n) == (a, d)
  {
    RotateBack(XorWord(d, Plus(a, b)), n);
    XorUndo(d, Plus(a, b));
  }

  function Unquarter(q: Four): Four {
    var (c1, b1) := Unhalf(q.c, q.d, q.b, 7);
    var (a1, d1) := Unhalf(q.a, b1, q.d, 8);
    var (c0, b0) := Unhalf(c1, d1, b1, 12);
    var (a0, d0) := Unhalf(a1, b0, d1, 16);
    Four(a0, b0, c0, d0)
  }

  lemma QuarterBack(q: Four)
    ensures Unquarter(Quarter(q)) == q
  {
    var (a1, d1) := Half(q.a, q.b, q.d, 16);
    var (c1, b1) := Half(q.c, d1, q.b, 12);
    var (a2, d2) := Half(a1, b1, d1, 8);
    HalfBack(c1, d2, b1, 7);
    HalfBack(a1, b1, d1, 8);
    HalfBack(q.c, d1, q.b, 12);
    HalfBack(q.a, q.b, q.d, 16);
  }

  /** g undoes f. */
  ghost predicate Undoes(g: Four -> Four, f: Four -> Four) {
    forall q :: g(f(q)) == q
  }

  lemma OnBack(f: Four -> Four, g: Four -> Four, x: State, a: nat, b: nat, c: nat, d: nat)
    requires a < 4 <= b < 8 <= c < 12 <= d < 16 && Undoes(g, f)
    ensures On(g, On(f, x, a, b, c, d), a, b, c, d) == x
  {
  }

  lemma OnInjective(f: Four -> Four, g: Four -> Four, x: State, y: State, a: nat, b: nat, c: nat, d: nat)
    requires a < 4 <= b < 8 <= c < 12 <= d < 16 && Undoes(g, f) && On(f, x, a, b, c, d) == On(f, y, a, b, c, d)
    ensures x == y
  {
    OnBack(f, g, x, a, b, c, d);
    OnBack(f, g, y, a, b, c, d);
  }

  lemma ColumnRoundInjective(f: Four -> Four, g: Four -> Four, x: State, y: State)
    requires Undoes(g, f) && ColumnRound(f, x) == ColumnRound(f, y)
    ensures x == y
  {
    var x1, y1 := On(f, x, 0, 4, 8, 12), On(f, y, 0, 4, 8, 12);
    var x2, y2 := On(f, x1, 1, 5, 9, 13), On(f, y1, 1, 5, 9, 13);
    var x3, y3 := On(f, x2, 2, 6, 10, 14), On(f, y2, 2, 6, 10, 14);
    OnInjective(f, g, x3, y3, 3, 7, 11, 15);
    OnInjective(f, g, x2, y2, 2, 6, 10, 14);
    OnInjective(f, g, x1, y1, 1, 5, 9, 13);
    OnInjective(f, g, x, y, 0, 4, 8, 12);
  }

  lemma DiagonalRoundInjective(f: Four -> Four, g: Four -> Four, x: State, y: State)
    requires Undoes(g, f) && DiagonalRound(f, x) == DiagonalRound(f, y)
    ensures x == y
  {
    var x1, y1 := On(f, x, 0, 5, 10, 15), On(f, y, 0, 5, 10, 15);
    var x2, y2 := On(f, x1, 1, 6, 11, 12), On(f, y1, 1, 6, 11, 12);
    var x3, y3 := On(f, x2, 2, 7, 8, 13), On(f, y2, 2, 7, 8, 13);
    OnInjective(f, g, x3, y3, 3, 4, 9, 14);
    OnInjective(f, g, x2, y2, 2, 7, 8, 13);
    OnInjective(f, g, x1, y1, 1, 6, 11, 12);
    OnInjective(f, g, x, y, 0, 5, 10, 15);
  }

  lemma DoubleRoundInjective(f: Four -> Four, g: Four -> Four, x: State, y: State)
    requires Undoes(g, f) && DiagonalRound(f, ColumnRound(f, x)) == DiagonalRound(f, ColumnRound(f, y))
    ensures x == y
  {
    DiagonalRoundInjective(f, g, ColumnRound(f, x), ColumnRound(f, y));
    ColumnRoundInjective(f, g, x, y);
  }

  lemma {:induction false} IterateInjective(r: State -> State, x: State, y: State, n: nat)
    requires forall a, b :: r(a) == r(b) ==> a == b
    requires Iterate(r, x, n) == Iterate(r, y, n)
    ensures x == y
  {
    if n > 0 {
      IterateInjective(r, x, y, n - 1);
    }
  }

  /** States that differ, in the counter say, still differ after the twenty rounds. */
  lemma RoundsPermute(x: State, y: State)
    requires Rounds(x) == Rounds(y)
    ensures x == y
  {
    QuarterUndone();
    forall a: State, b: State | DoubleRound(a) == DoubleRound(b) ensures a == b {
      DoubleRoundInjective(Quarter, Unquarter, a, b);
    }
    IterateInjective(DoubleRound, x, y, ROUNDS / 2);
  }

  lemma QuarterUndone()
    ensures Undoes(Unquarter, Quarter)
  {
    forall q: Four ensures Unquarter(Quarter(q)) == q {
      QuarterBack(q);
    }
  }
}
