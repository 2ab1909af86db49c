/** The per-sample scaling value of `FlattenedDataset`: the accepted
    `scaling_type` strings and the mean, max or sum of a sample's counts. */
module Scaling {
  import opened Common

  datatype ScalingType = Mean | Max | Sum

  /** The accepted `scaling_type` strings; anything else is the ValueError. */
  function ParseScaling(s: string): (r: Option<ScalingType>)
    ensures r.Some? <==> s == "mean" || s == "max" || s == "sum"
    ensures r == Some(Mean) <==> s == "mean"
    ensures r == Some(Max) <==> s == "max"
  {
    if s == "mean" then Some(Mean)
    else if s == "max" then Some(Max)
    else if s == "sum" then Some(Sum)
    else None
  }

  /** The sum of a row of counts. */
  function RowSum(row: seq<real>): real
  {
    if row == [] then 0.0 else row[0] + RowSum(row[1..])
  }

  /** Counts are never negative, so neither is their sum, and no single count
      exceeds it. */
  lemma {:induction false} RowSumNonnegative(row: seq<real>)
    ensures (forall i :: 0 <= i < |row| ==> row[i] >= 0.0) ==>
      RowSum(row) >= 0.0 && forall i :: 0 <= i < |row| ==> row[i] <= RowSum(row)
  {
    if row != [] {
      assert forall i :: 0 <= i < |row[1..]| ==> row[1..][i] == row[i + 1];
      RowSumNonnegative(row[1..]);
    }
  }

  function RowMax(row: seq<real>): (m: real)
    requires |row| > 0
    ensures m in row
    ensures forall i :: 0 <= i < |row| ==> row[i] <= m
  {
    if |row| == 1 then row[0]
    else
      var rest := RowMax(row[1..]);
      assert forall i :: 1 <= i < |row| ==> row[i] == row[1..][i - 1];
      if row[0] >= rest then row[0] else rest
  }

  /** The mean of a non-empty row. */
  function RowMean(row: seq<real>): real
    requires |row| > 0
  {
    RowSum(row) / (|row| as real)
  }

  /** `|row|` copies of the mean add up to the row's sum. */
  lemma RowMeanTimesLength(row: seq<real>)
    requires |row| > 0
    ensures (|row| as real) * RowMean(row) == RowSum(row)
  {
    var n, q := |row| as real, RowMean(row);
    assert q == RowSum(row) / n;
  }

  /** The mean lies at or below the row's largest entry; non-negative counts
      have a non-negative mean. */
  lemma RowMeanBounds(row: seq<real>)
    requires |row| > 0
    ensures RowMean(row) <= RowMax(row)
    ensures (forall i :: 0 <= i < |row| ==> row[i] >= 0.0) ==> RowMean(row) >= 0.0
  {
    RowSumAtMost(row, RowMax(row));
    QuotientAtMost(RowSum(row), |row|, RowMax(row));
    RowSumNonnegative(row);
  }

  /** `k` copies of `b` added up. */
  function Copies(k: nat, b: real): real
  {
    if k == 0 then 0.0 else b + Copies(k - 1, b)
  }

  /** Adding up `k` copies of `b` is multiplying `b` by `k`. */
  lemma {:induction false} CopiesProduct(k: nat, b: real)
    ensures Copies(k, b) == (k as real) * b
  {
    if k > 0 {
      CopiesProduct(k - 1, b);
      var x := (k - 1) as real;
      assert (x + 1.0) * b == x * b + b;
    }
  }

  /** Dividing by a positive count `k`: a dividend of at most `k` copies of
      `b` gives a quotient of at most `b`, and a non-negative dividend a
      non-negative quotient. */
  lemma QuotientAtMost(s: real, k: nat, b: real)
    requires k > 0
    ensures s <= Copies(k, b) ==> s / (k as real) <= b
    ensures s >= 0.0 ==> s / (k as real) >= 0.0
  {
    CopiesProduct(k, b);
    var n, q := k as real, s / (k as real);
    assert n * q == s;
    assert n * (b - q) == n * b - s;
  }

  /** A row whose entries are all at most `b` sums to at most `|row|` copies of `b`. */
  lemma {:induction false} RowSumAtMost(row: seq<real>, b: real)
    requires forall i :: 0 <= i < |row| ==> row[i] <= b
    ensures RowSum(row) <= Copies(|row|, b)
  {
    if row != [] {
      assert forall i :: 0 <= i < |row[1..]| ==> row[1..][i] == row[i + 1];
      RowSumAtMost(row[1..], b);
    }
  }

  /** Summing a row is additive over any split of the row. */
  lemma {:induction false} RowSumAppend(a: seq<real>, b: seq<real>)
    ensures RowSum(a + b) == RowSum(a) + RowSum(b)
  {
    if a != [] {
      assert (a + b)[1..] == a[1..] + b;
      RowSumAppend(a[1..], b);
    } else {
      assert a + b == b;
    }
  }

  /** The scaling value of one sample row; only a sum is defined on an empty row. */
  function LibValue(row: seq<real>, mode: ScalingType): real
    requires mode != Sum ==> |row| > 0
  {
    match mode
    case Mean => RowMean(row)
    case Max => RowMax(row)
    case Sum => RowSum(row)
  }

  /** What each mode's scaling value means for the row: a max is one of the
      counts and bounds them all; a mean is at most the max; for non-negative
      counts every scaling value is non-negative, and a sum bounds each count. */
  lemma LibValueBounds(row: seq<real>, mode: ScalingType)
    requires mode != Sum ==> |row| > 0
    ensures var r := LibValue(row, mode);
      && (mode == Max ==> r in row && forall i :: 0 <= i < |row| ==> row[i] <= r)
      && (mode == Mean ==> r <= RowMax(row))
      && ((forall i :: 0 <= i < |row| ==> row[i] >= 0.0) ==> r >= 0.0)
      && (mode == Sum && (forall i :: 0 <= i < |row| ==> row[i] >= 0.0) ==>
            forall i :: 0 <= i < |row| ==> row[i] <= r)
  {
    match mode
    case Mean =>
      assert LibValue(row, mode) == RowMean(row);
      RowMeanBounds(row);
    case Max =>
    case Sum => RowSumNonnegative(row);
  }

  /** The three scaling modes on the row [1, 2, 3, 4]. */
  lemma ScalingExample()
    ensures LibValue([1.0, 2.0, 3.0, 4.0], Sum) == 10.0
    ensures LibValue([1.0, 2.0, 3.0, 4.0], Mean) == 2.5
    ensures LibValue([1.0, 2.0, 3.0, 4.0], Max) == 4.0
  {
    var r := [1.0, 2.0, 3.0, 4.0];
    assert r[1..][1..][1..][1..] == [];
    assert RowSum(r) == 10.0;
    assert r[1..][1..][1..] == [4.0];
    assert RowMax(r) == 4.0;
  }
}
