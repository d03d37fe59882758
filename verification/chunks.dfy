/**
 * Row-major layout: a sequence of equal-length chunks laid end to end, and
 * where element j of chunk i ends up. Image rows, pixels and channels are
 * serialised this way.
 */
module Chunks {

  function Concat<T>(chunks: seq<seq<T>>): seq<T>
    decreases |chunks|
  {
    if |chunks| == 0 then [] else chunks[0] + Concat(chunks[1..])
  }

  /**
   * Position `col` of row `row` when rows are `stride` long: `row` whole rows
   * are skipped. Counted row by row, so that proofs about an index do not
   * face the product unless they ask for it (RowMajorProduct).
   */
  function RowMajor(stride: nat, row: nat, col: nat): nat
    decreases row
  {
    if row == 0 then col else RowMajor(stride, row - 1, col) + stride
  }

  lemma {:induction false} RowMajorProduct(stride: nat, row: nat, col: nat)
    ensures RowMajor(stride, row, col) == row * stride + col
    decreases row
  {
    if row > 0 {
      RowMajorProduct(stride, row - 1, col);
    }
  }

  /** Row `row` of `rows` rows, each `stride` long, lies within them. */
  lemma {:induction false} RowFits(stride: nat, rows: nat, row: nat)
    requires row < rows
    ensures RowMajor(stride, row + 1, 0) <= rows * stride
  {
    RowMajorProduct(stride, row + 1, 0);
    MulLe(row + 1, rows, stride);
  }

  lemma MulLe(a: nat, b: nat, c: nat)
    requires a <= b
    ensures a * c <= b * c
  {
  }

  lemma RowMajorProducts(stride: nat, row: nat)
    ensures forall col: nat :: RowMajor(stride, row, col) == row * stride + col
  {
    forall col: nat
      ensures RowMajor(stride, row, col) == row * stride + col
    {
      RowMajorProduct(stride, row, col);
    }
  }

  /** Every chunk has length m. */
  predicate Uniform<T>(chunks: seq<seq<T>>, m: nat) {
    forall k :: 0 <= k < |chunks| ==> |chunks[k]| == m
  }

  lemma {:induction false} ConcatLength<T>(chunks: seq<seq<T>>, m: nat)
    requires Uniform(chunks, m)
    ensures |Concat(chunks)| == |chunks| * m
    decreases |chunks|
  {
    if |chunks| > 0 {
      ConcatLength(chunks[1..], m);
    }
  }

  /** Element j of chunk i is element i*m + j of the concatenation. */
  lemma {:induction false} ConcatIndex<T>(chunks: seq<seq<T>>, m: nat, i: nat, j: nat)
    requires Uniform(chunks, m)
    requires i < |chunks| && j < m
    ensures |Concat(chunks)| == |chunks| * m
    ensures i * m + j < |Concat(chunks)|
    ensures Concat(chunks)[i * m + j] == chunks[i][j]
    decreases i
  {
    ConcatLength(chunks, m);
    if i > 0 {
      ConcatIndex(chunks[1..], m, i - 1, j);
      ConcatLength(chunks[1..], m);
      assert (i - 1) * m + j + m == i * m + j;
    }
  }

  /** A slice of a slice is a slice of the whole. */
  lemma SubSlice<T>(s: seq<T>, a: nat, b: nat, i: nat, j: nat)
    requires a <= b <= |s| && i <= j <= b - a
    ensures s[a..b][i..j] == s[a + i .. a + j]
  {
    forall k | 0 <= k < j - i
      ensures s[a..b][i..j][k] == s[a + i .. a + j][k]
    {
      assert s[a..b][i..j][k] == s[a..b][i + k] == s[a + i + k];
    }
  }
}
