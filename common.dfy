/** Value types shared by the dataset index and the best-fit initialisation,
    and the row-major flattening that both of them rely on. */
module Common {

  datatype Option<+T> = None | Some(value: T)

  datatype Result<+T, +E> = Success(value: T) | Failure(error: E)

  /** Every row of `rows` has exactly `width` entries (a 2-D tensor). */
  ghost predicate Rectangular<T>(rows: seq<seq<T>>, width: nat)
  {
    forall i :: 0 <= i < |rows| ==> |rows[i]| == width
  }

  /** Row-major concatenation: `[x for row in rows for x in row]`, or
      `view(-1, ...)` / `flatten()` on a contiguous tensor. */
  function Flatten<T>(rows: seq<seq<T>>): seq<T>
  {
    if rows == [] then [] else rows[0] + Flatten(rows[1..])
  }

  lemma {:induction false} FlattenLength<T>(rows: seq<seq<T>>, width: nat)
    requires Rectangular(rows, width)
    ensures |Flatten(rows)| == |rows| * width
  {
    if rows != [] {
      FlattenLength(rows[1..], width);
      assert |rows| * width == width + (|rows| - 1) * width;
    }
  }

  /** Entry `j` of row `s` sits at position `s * width + j` of the flattening. */
  lemma {:induction false} FlattenAtPair<T>(rows: seq<seq<T>>, width: nat, s: nat, j: nat)
    requires Rectangular(rows, width)
    requires s < |rows| && j < width
    ensures s * width + j < |Flatten(rows)|
    ensures Flatten(rows)[s * width + j] == rows[s][j]
  {
    FlattenLength(rows, width);
    FlattenLength(rows[1..], width);
    if s > 0 {
      FlattenAtPair(rows[1..], width, s - 1, j);
      assert s * width + j == width + ((s - 1) * width + j);
    }
  }

  /** Position `k` of the flattening is entry `ColOf(k)` of row `RowOf(k)`. */
  lemma FlattenAt<T>(rows: seq<seq<T>>, width: nat, k: nat)
    requires Rectangular(rows, width)
    requires k < |rows| * width
    ensures width > 0 && RowOf(k, width) < |rows|
    ensures |Flatten(rows)| == |rows| * width
    ensures Flatten(rows)[k] == rows[RowOf(k, width)][ColOf(k, width)]
  {
    FlattenLength(rows, width);
    assert width > 0;
    var s, j := k / width, k % width;
    assert k == s * width + j;
    if s >= |rows| {
      MulMonotone(|rows|, s, width);
    }
    FlattenAtPair(rows, width, s, j);
  }

  /** The position of pair `(s, m)` in a row-major enumeration. */
  function PairIndex(s: nat, m: nat, width: nat): nat
  {
    s * width + m
  }

  /** The row of position `k` in a row-major enumeration of rows of `width` entries. */
  function RowOf(k: nat, width: nat): nat
    requires width > 0
  {
    k / width
  }

  /** The column of position `k` in a row-major enumeration of rows of `width` entries. */
  function ColOf(k: nat, width: nat): (j: nat)
    requires width > 0
    ensures j < width
  {
    k % width
  }

  /** Re-encoding a decoded position gives the position back. */
  lemma DecodeEncode(k: nat, width: nat)
    requires width > 0
    ensures PairIndex(RowOf(k, width), ColOf(k, width), width) == k
  {
  }

  /** Decoding an encoded pair gives the pair back. */
  lemma EncodeDecode(s: nat, j: nat, width: nat)
    requires j < width
    ensures RowOf(PairIndex(s, j, width), width) == s
    ensures ColOf(PairIndex(s, j, width), width) == j
  {
    var k := PairIndex(s, j, width);
    DecodeEncode(k, width);
    var r, c := RowOf(k, width), ColOf(k, width);
    assert (r - s) * width == j - c;
    if r > s {
      MulMonotone(1, r - s, width);
    } else if r < s {
      MulMonotone(1, s - r, width);
    }
  }

  lemma MulMonotone(a: nat, b: nat, c: nat)
    requires a <= b
    ensures a * c <= b * c
  {
  }
}
