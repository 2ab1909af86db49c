/** The best-fit initialisation of `learn_new_representation` in the variant
    that searches sample and context candidates jointly: every sample
    candidate is concatenated with every context candidate, the grid is
    decoded once, every batch picks the first best grid row, and the buffer
    is split back into a sample part and a context part at `rep_dim`. */
module AllPairsPredict {
  import opened Common
  import opened BestFit

  // ---------------------------------------------------------------------------
  // The candidate grid

  /** Row `s` of the grid before flattening: sample candidate `s` followed by
      each context candidate in turn (`repeat` on both sides, then `cat`). */
  function GridRows(p: seq<Vec>, q: seq<Vec>): (rows: seq<seq<Vec>>)
    ensures |rows| == |p| && Rectangular(rows, |q|)
    ensures forall s, j :: 0 <= s < |p| && 0 <= j < |q| ==> rows[s][j] == p[s] + q[j]
  {
    seq(|p|, s requires 0 <= s < |p| => seq(|q|, j requires 0 <= j < |q| => p[s] + q[j]))
  }

  /** `all_pairs.view(-1, sample_dim + mut_dim)`: the grid in row-major order. */
  function Grid(p: seq<Vec>, q: seq<Vec>): (grid: seq<Vec>)
    ensures |grid| == |p| * |q|
  {
    FlattenLength(GridRows(p, q), |q|);
    Flatten(GridRows(p, q))
  }

  /** Grid row `k` is sample candidate `RowOf(k, |q|)` followed by context candidate
      `ColOf(k, |q|)`: the sample candidate varies slowest. */
  lemma GridAt(p: seq<Vec>, q: seq<Vec>, k: nat)
    requires k < |Grid(p, q)|
    ensures |q| > 0 && RowOf(k, |q|) < |p|
    ensures Grid(p, q)[k] == p[RowOf(k, |q|)] + q[ColOf(k, |q|)]
  {
    FlattenAt(GridRows(p, q), |q|, k);
  }

  /** Every pair of candidates occurs in the grid, at its row-major position,
      and that position decodes back to the pair: together with `GridAt`,
      each pair occurs exactly once. */
  lemma GridRoundTrip(p: seq<Vec>, q: seq<Vec>)
    ensures forall s, j :: 0 <= s < |p| && 0 <= j < |q| ==>
      PairIndex(s, j, |q|) < |Grid(p, q)| && Grid(p, q)[PairIndex(s, j, |q|)] == p[s] + q[j]
    ensures forall s, j :: 0 <= s < |p| && 0 <= j < |q| ==>
      RowOf(PairIndex(s, j, |q|), |q|) == s && ColOf(PairIndex(s, j, |q|), |q|) == j
  {
    forall s, j | 0 <= s < |p| && 0 <= j < |q|
      ensures PairIndex(s, j, |q|) < |Grid(p, q)| && Grid(p, q)[PairIndex(s, j, |q|)] == p[s] + q[j]
      ensures RowOf(PairIndex(s, j, |q|), |q|) == s && ColOf(PairIndex(s, j, |q|), |q|) == j
    {
      FlattenAtPair(GridRows(p, q), |q|, s, j);
      EncodeDecode(s, j, |q|);
    }
  }

  /** With sample candidates of width `ds` and context candidates of width
      `dm`, every grid row has width `ds + dm`. */
  lemma GridWidth(p: seq<Vec>, q: seq<Vec>, ds: nat, dm: nat)
    requires Rectangular(p, ds) && Rectangular(q, dm)
    ensures Rectangular(Grid(p, q), ds + dm)
  {
    forall k | 0 <= k < |Grid(p, q)|
      ensures |Grid(p, q)[k]| == ds + dm
    {
      GridAt(p, q, k);
    }
  }

  // ---------------------------------------------------------------------------
  // The split at `rep_dim`

  /** `row[:d]` and `row[d:]`, with Python's clamping of a slice bound past the end. */
  function SplitRow(row: Vec, d: nat): (parts: (Vec, Vec))
    ensures parts.0 + parts.1 == row
    ensures |parts.0| == if d <= |row| then d else |row|
  {
    var c := if d <= |row| then d else |row|;
    (row[..c], row[c..])
  }

  /** `rep_init_values[:, :rep_dim]` and `rep_init_values[:, rep_dim:]`. */
  function SplitLayers(rows: seq<Vec>, d: nat): (layers: (seq<Vec>, seq<Vec>))
    ensures |layers.0| == |rows| && |layers.1| == |rows|
    ensures forall r :: 0 <= r < |rows| ==> (layers.0[r], layers.1[r]) == SplitRow(rows[r], d)
  {
    (seq(|rows|, r requires 0 <= r < |rows| => SplitRow(rows[r], d).0),
     seq(|rows|, r requires 0 <= r < |rows| => SplitRow(rows[r], d).1))
  }

  /** Splitting a concatenation at the length of its first part gives both parts back. */
  lemma SplitConcat(a: Vec, b: Vec)
    ensures SplitRow(a + b, |a|) == (a, b)
  {
    assert (a + b)[..|a|] == a;
    assert (a + b)[|a|..] == b;
  }

  /** Splitting grid row `k` at the sample width recovers exactly the sample
      candidate and the context candidate it was built from. */
  lemma SplitGridRow(p: seq<Vec>, q: seq<Vec>, k: nat, repDim: nat)
    requires Rectangular(p, repDim)
    requires k < |Grid(p, q)|
    ensures |q| > 0 && RowOf(k, |q|) < |p|
    ensures SplitRow(Grid(p, q)[k], repDim) == (p[RowOf(k, |q|)], q[ColOf(k, |q|)])
  {
    GridAt(p, q, k);
    SplitConcat(p[RowOf(k, |q|)], q[ColOf(k, |q|)]);
  }

  /** Splitting a zero row gives two zero rows. */
  lemma SplitZeros(ds: nat, dm: nat)
    ensures SplitRow(Zeros(ds + dm), ds) == (Zeros(ds), Zeros(dm))
  {
    assert Zeros(ds + dm) == Zeros(ds) + Zeros(dm);
    SplitConcat(Zeros(ds), Zeros(dm));
  }

  // ---------------------------------------------------------------------------
  // The best-fit loop

  /** The grid row batch `b` selects: the first reconstruction with the
      smallest loss against the batch. */
  function ChoiceIndex<R, O>(recons: seq<R>, loss: (R, O) -> real, b: PairBatch<O>): (k: nat)
    requires |recons| > 0
    ensures k < |recons|
  {
    ArgMin(Scores(recons, (x: R) => loss(x, b.obs)))
  }

  /** The writes of the loop: batch `t` writes its chosen grid row into the rows `rowsOf(batches[t])`. */
  function Writes<R, O>(grid: seq<Vec>, recons: seq<R>, loss: (R, O) -> real,
                        rowsOf: PairBatch<O> -> seq<int>, batches: seq<PairBatch<O>>): (ws: seq<Write>)
    requires 0 < |grid| == |recons|
    ensures |ws| == |batches|
    ensures forall t :: 0 <= t < |batches| ==> ws[t].rows == rowsOf(batches[t])
  {
    seq(|batches|, t requires 0 <= t < |batches| =>
      Write(rowsOf(batches[t]), grid[ChoiceIndex(recons, loss, batches[t])]))
  }

  /** The two layers after the loop, split at the sample width: the last
      write to a row splits into the sample and the context candidate of its
      grid row, and an unwritten row splits into two zero rows. */
  lemma Layers<R, O>(p: seq<Vec>, q: seq<Vec>, recons: seq<R>, loss: (R, O) -> real,
                     rowsOf: PairBatch<O> -> seq<int>, batches: seq<PairBatch<O>>, n: nat)
    requires |p| > 0 && |q| > 0 && Rectangular(p, |p[0]|) && Rectangular(q, |q[0]|)
    requires 0 < |Grid(p, q)| == |recons|
    ensures var layers := SplitLayers(Replay(ZeroRows(n, |p[0]| + |q[0]|), Writes(Grid(p, q), recons, loss, rowsOf, batches)), |p[0]|);
      forall r :: 0 <= r < n ==>
      match LastWrite(Writes(Grid(p, q), recons, loss, rowsOf, batches), r)
      case None => layers.0[r] == Zeros(|p[0]|) && layers.1[r] == Zeros(|q[0]|)
      case Some(t) =>
        var k := ChoiceIndex(recons, loss, batches[t]);
        r in rowsOf(batches[t]) && RowOf(k, |q|) < |p| && layers.0[r] == p[RowOf(k, |q|)] && layers.1[r] == q[ColOf(k, |q|)]
  {
    var ws := Writes(Grid(p, q), recons, loss, rowsOf, batches);
    var zero := ZeroRows(n, |p[0]| + |q[0]|);
    var layers := SplitLayers(Replay(zero, ws), |p[0]|);
    forall r | 0 <= r < n
      ensures match LastWrite(ws, r)
        case None => layers.0[r] == Zeros(|p[0]|) && layers.1[r] == Zeros(|q[0]|)
        case Some(t) =>
          var k := ChoiceIndex(recons, loss, batches[t]);
          r in rowsOf(batches[t]) && RowOf(k, |q|) < |p| && layers.0[r] == p[RowOf(k, |q|)] && layers.1[r] == q[ColOf(k, |q|)]
    {
      ReplayAt(zero, ws, r);
      match LastWrite(ws, r)
      case None =>
        SplitZeros(|p[0]|, |q[0]|);
      case Some(t) =>
        SplitGridRow(p, q, ChoiceIndex(recons, loss, batches[t]), |p[0]|);
    }
  }

  /** The loop with an explicit write target `rowsOf` (the dataset rows a
      batch stands for), followed by the split into the two new layers. Both
      layers have `len(dataset)` rows. When `rep_dim` is the sample width, a
      row that some batch targets holds, in the two layers, the sample and
      the context candidate of the last such batch's choice; a row no batch
      targets is zero in both. */
  method LearnInit<R, O>(p: seq<Vec>, q: seq<Vec>, decoder: Vec -> R, loss: (R, O) -> real,
                         rowsOf: PairBatch<O> -> seq<int>, batches: seq<PairBatch<O>>,
                         nSamplesNew: nat, repDim: nat)
    returns (sampleInit: seq<Vec>, mutInit: seq<Vec>)
    requires |p| > 0 && |q| > 0
    requires Rectangular(p, |p[0]|) && Rectangular(q, |q[0]|)
    requires forall t, r :: 0 <= t < |batches| && r in rowsOf(batches[t]) ==> 0 <= r < nSamplesNew
    ensures |sampleInit| == nSamplesNew && |mutInit| == nSamplesNew
    ensures (sampleInit, mutInit) == SplitLayers(
      Replay(ZeroRows(nSamplesNew, |p[0]| + |q[0]|),
             Writes(Grid(p, q), DecodeAll(Grid(p, q), decoder), loss, rowsOf, batches)), repDim)
    ensures repDim == |p[0]| ==> forall r :: 0 <= r < nSamplesNew ==>
      match LastWrite(Writes(Grid(p, q), DecodeAll(Grid(p, q), decoder), loss, rowsOf, batches), r)
      case None => sampleInit[r] == Zeros(|p[0]|) && mutInit[r] == Zeros(|q[0]|)
      case Some(t) =>
        var k := ChoiceIndex(DecodeAll(Grid(p, q), decoder), loss, batches[t]);
        r in rowsOf(batches[t]) && RowOf(k, |q|) < |p| && sampleInit[r] == p[RowOf(k, |q|)] && mutInit[r] == q[ColOf(k, |q|)]
  {
    var potentialReps := PreparePotentialReps([p]);
    var mutPotentialReps := PreparePotentialReps([q]);
    assert potentialReps == p && mutPotentialReps == q;
    var allPairsFlat := Grid(potentialReps, mutPotentialReps);
    var xTest := DecodeAll(allPairsFlat, decoder);
    var width := |potentialReps[0]| + |mutPotentialReps[0]|;
    var repInitValues := new Vec[nSamplesNew](_ => Zeros(width));
    assert repInitValues[..] == ZeroRows(nSamplesNew, width);
    ghost var ws := Writes(allPairsFlat, xTest, loss, rowsOf, batches);

    for t := 0 to |batches|
      invariant repInitValues[..] == Replay(ZeroRows(nSamplesNew, width), ws[..t])
    {
      var b := batches[t];
      var lossVec := ScoreAll(xTest, (x: R) => loss(x, b.obs));
      assert lossVec == Scores(xTest, (x: R) => loss(x, b.obs));
      var bestFitId := ArgMin(lossVec);
      Scatter(repInitValues, rowsOf(b), allPairsFlat[bestFitId]);
      ReplayStep(ZeroRows(nSamplesNew, width), ws, t);
    }
    assert ws[..|batches|] == ws;
    var layers := SplitLayers(repInitValues[..], repDim);
    sampleInit, mutInit := layers.0, layers.1;

    if repDim == |p[0]| {
      Layers(p, q, xTest, loss, rowsOf, batches, nSamplesNew);
    }
  }

  /** The failure of the loop as written: a name that nothing binds. The
      loader yields `mut_data, lib, sample_idx, mut_idx` per batch; no dataset
      index `i` is among them. */
  datatype InitError = UndefinedName(name: string)

  /** The loop as written: the write `rep_init_values[i, :]` names `i`, which
      nothing defines, so the first batch raises before any row is written.
      Only an empty loader gets through, and then both layers are the split
      of the untouched zero buffer. */
  method LearnInitAsWritten<R, O>(p: seq<Vec>, q: seq<Vec>, decoder: Vec -> R, loss: (R, O) -> real,
                                  batches: seq<PairBatch<O>>, nSamplesNew: nat, repDim: nat)
    returns (r: Result<(seq<Vec>, seq<Vec>), InitError>)
    requires |p| > 0 && |q| > 0
    ensures r.Failure? <==> |batches| > 0
    ensures r.Failure? ==> r.error == UndefinedName("i")
    ensures r.Success? ==> r.value == SplitLayers(ZeroRows(nSamplesNew, |p[0]| + |q[0]|), repDim)
  {
    var potentialReps := PreparePotentialReps([p]);
    var mutPotentialReps := PreparePotentialReps([q]);
    var allPairsFlat := Grid(potentialReps, mutPotentialReps);
    var xTest := DecodeAll(allPairsFlat, decoder);
    var width := |potentialReps[0]| + |mutPotentialReps[0]|;
    var repInitValues := new Vec[nSamplesNew](_ => Zeros(width));
    assert repInitValues[..] == ZeroRows(nSamplesNew, width);

    for t := 0 to |batches|
      invariant t == 0
      invariant repInitValues[..] == ZeroRows(nSamplesNew, width)
    {
      var b := batches[t];
      var lossVec := ScoreAll(xTest, (x: R) => loss(x, b.obs));
      var bestFitId := ArgMin(lossVec);
      return Failure(UndefinedName("i"));
    }
    r := Success(SplitLayers(repInitValues[..], repDim));
  }
}
