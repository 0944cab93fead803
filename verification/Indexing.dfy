/** Powers of two, and row-major index arithmetic. */
module Indexing {
  function Min(a: nat, b: nat): nat {
    if a < b then a else b
  }

  function Pow2(k: nat): (p: nat)
    ensures p >= 1
  {
    if k == 0 then 1 else 2 * Pow2(k - 1)
  }

  predicate Distinct(s: seq<nat>) {
    forall i, j :: 0 <= i < j < |s| ==> s[i] != s[j]
  }

  lemma TimesMonotone(a: nat, b: nat, d: nat)
    requires a <= b
    ensures a * d <= b * d
  {
  }

  /** A quotient and a remainder are the only ones. */
  lemma DivideUnique(n: nat, d: nat, q: nat, r: nat)
    requires n == q * d + r && r < d
    ensures n / d == q && n % d == r
  {
    var p := n / d;
    assert n == p * d + n % d;
    if p < q {
      TimesMonotone(p + 1, q, d);
      assert false;
    }
    if q < p {
      TimesMonotone(q + 1, p, d);
      assert false;
    }
  }

  /** Entry (row, column) of a row-major table, and back. */
  lemma Flat(row: nat, rows: nat, column: nat, width: nat)
    requires row < rows && column < width
    ensures row * width + column < rows * width
    ensures (row * width + column) / width == row
    ensures (row * width + column) % width == column
  {
    TimesMonotone(row + 1, rows, width);
    DivideUnique(row * width + column, width, row, column);
  }

  lemma RowBelow(i: nat, rows: nat, width: nat)
    requires i < rows * width
    ensures width > 0 && i / width < rows
    ensures i == (i / width) * width + i % width
  {
    if rows <= i / width {
      TimesMonotone(rows, i / width, width);
      assert false;
    }
  }

  lemma MultipleRemainder(a: nat, d: nat)
    requires d > 0
    ensures (a * d) % d == 0 && (a * d) / d == a
  {
    DivideUnique(a * d, d, a, 0);
  }

  lemma WholeRows(n: nat, width: nat)
    requires width > 0 && n % width == 0
    ensures (n / width) * width == n
  {
  }

  function Pieces(n: nat, size: nat): nat
    requires size > 0
  {
    n / size
  }

  /** Row `j` of the whole rows in `n` elements. */
  lemma RowInside(j: nat, n: nat, width: nat)
    requires width > 0 && j < n / width
    ensures j * width + width <= n
  {
    TimesMonotone(j + 1, n / width, width);
  }

  /** Whole rows that are cut evenly can be counted in the smaller pieces. */
  lemma PiecesOfRows(n: nat, width: nat, piece: nat)
    requires width > 0 && piece > 0 && n % width == 0 && width % piece == 0
    ensures n % piece == 0 && (n / piece) * piece == n
  {
    var a, b := n / width, width / piece;
    WholeRows(n, width);
    WholeRows(width, piece);
    assert n == (a * b) * piece;
    MultipleRemainder(a * b, piece);
  }

  lemma GroupIndex(i: nat, n: nat, groupSize: nat)
    requires groupSize > 0 && n % groupSize == 0 && i < n
    ensures i / groupSize < n / groupSize
    ensures i == (i / groupSize) * groupSize + i % groupSize
  {
    WholeRows(n, groupSize);
    RowBelow(i, n / groupSize, groupSize);
  }

  /** The group, of `groupSize` consecutive elements, that element `i` lies in. */
  function GroupNumber(i: nat, n: nat, groupSize: nat): (k: nat)
    requires groupSize > 0 && n % groupSize == 0 && i < n
    ensures k < n / groupSize
  {
    GroupIndex(i, n, groupSize);
    i / groupSize
  }

  /** Where piece `i` of `size` elements starts. */
  function Offset(i: nat, size: nat): nat {
    i * size
  }

  lemma NoOffset(size: nat)
    ensures Offset(0, size) == 0
  {
  }

  lemma NextOffset(i: nat, size: nat)
    ensures Offset(i + 1, size) == Offset(i, size) + size
  {
  }

  lemma OffsetInside(i: nat, count: nat, size: nat)
    requires i < count
    ensures Offset(i, size) + size <= Offset(count, size)
  {
    TimesMonotone(i + 1, count, size);
  }
}
