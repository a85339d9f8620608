/** The block function as section 2 of RFC 8439 describes it: a matrix of words, its constants as text, and its rounds. */
module ChaChaRfc {
  import opened Basics
  import opened Words
  import opened ChaChaCore
  import opened ChaCha

  // ---- rounds on the matrix

  /** Column k of the state as a four by four matrix, the first four words being its first row. */
  function Column(x: State, k: nat): Four
    requires k < 4
  {
    Four(x[k], x[4 + k], x[8 + k], x[12 + k])
  }

  /** Row r of the matrix rotated to the left by r places. */
  function Skewed(x: State): State { seq(16, i requires 0 <= i < 16 => x[4 * (i / 4) + (i % 4 + i / 4) % 4]) }

  /** A column round works on every column by itself. */
  lemma ColumnsAlone(f: Four -> Four, x: State, k: nat)
    requires k < 4
    ensures Column(ColumnRound(f, x), k) == f(Column(x, k))
  {
  }

  /** What is a column there is a diagonal here. */
  lemma SkewedColumn(x: State, k: nat)
    requires k < 4
    ensures Column(Skewed(x), k) == Four(x[k], x[4 + (k + 1) % 4], x[8 + (k + 2) % 4], x[12 + (k + 3) % 4])
  {
  }

  /** A diagonal round is a column round of the matrix with row r rotated by r, and so works on every diagonal by itself. */
  lemma DiagonalsAlone(f: Four -> Four, x: State, k: nat)
    requires k < 4
    ensures Column(Skewed(DiagonalRound(f, x)), k) == f(Column(Skewed(x), k))
  {
    SkewedColumn(x, k);
    SkewedColumn(DiagonalRound(f, x), k);
  }

  lemma ColumnsDetermine(x: State, y: State)
    requires forall k :: 0 <= k < 4 ==> Column(x, k) == Column(y, k)
    ensures x == y
  {
    forall i | 0 <= i < 16 ensures x[i] == y[i] {
      assert Column(x, i % 4) == Column(y, i % 4);
    }
  }

  lemma DiagonalIsSkewedColumn(f: Four -> Four, x: State)
    ensures Skewed(DiagonalRound(f, x)) == ColumnRound(f, Skewed(x))
  {
    forall k | 0 <= k < 4 ensures Column(Skewed(DiagonalRound(f, x)), k) == Column(ColumnRound(f, Skewed(x)), k) {
      DiagonalsAlone(f, x, k);
      ColumnsAlone(f, Skewed(x), k);
    }
    ColumnsDetermine(Skewed(DiagonalRound(f, x)), ColumnRound(f, Skewed(x)));
  }

  /** Twenty rounds are n double rounds, n being ten. */
  lemma RoundsAreTwenty(s: State, n: nat)
    requires 2 * n == 20
    ensures Rounds(s) == Iterate(DoubleRound, s, n)
  {
  }

  // ---- the constants

  function Text(s: string): Bytes { seq(|s|, i requires 0 <= i < |s| => if s[i] < '\U{80}' then s[i] as int else 0) }

  lemma ConstantsAreText(i: nat)
    requires i < 4
    ensures SIGMA[i] == Load(Text("expand 32-byte k"), 4 * i) && TAU[i] == Load(Text("expand 16-byte k"), 4 * i)
  {
  }
}
