/** The best-fit initialisation of `learn_new_representation` in the
    single-space variant: the mixture's points are decoded once, every batch
    scores all reconstructions, and the first best candidate is written into
    every row the batch indexes. */
module Predict {
  import opened Common
  import opened BestFit

  /** One batch of the loader: the observed counts and library sizes the
      loss reads (opaque), and the dataset indices `i` of its rows. */
  datatype IndexedBatch<O> = IndexedBatch(obs: O, index: seq<int>)

  /** The candidate batch `b` selects: the first reconstruction with the
      smallest loss against the batch. */
  function BatchChoice<R, O>(cands: seq<Vec>, recons: seq<R>, loss: (R, O) -> real, b: IndexedBatch<O>): Vec
    requires 0 < |cands| == |recons|
  {
    Pick(cands, Scores(recons, (x: R) => loss(x, b.obs)))
  }

  /** The writes of the loop, one per batch, in loader order. */
  function Writes<R, O>(cands: seq<Vec>, recons: seq<R>, loss: (R, O) -> real, batches: seq<IndexedBatch<O>>): (ws: seq<Write>)
    requires 0 < |cands| == |recons|
    ensures |ws| == |batches|
    ensures forall t :: 0 <= t < |batches| ==> ws[t].rows == batches[t].index
  {
    seq(|batches|, t requires 0 <= t < |batches| =>
      Write(batches[t].index, BatchChoice(cands, recons, loss, batches[t])))
  }

  /** The initial values of the new representation layer: `len(dataset)` rows
      of the candidates' width. A row that some batch indexes holds the choice
      of the last such batch; a row that no batch indexes stays zero. */
  method LearnInit<R, O>(points: seq<Vec>, decoder: Vec -> R, loss: (R, O) -> real,
                         batches: seq<IndexedBatch<O>>, nSamplesNew: nat)
    returns (init: seq<Vec>)
    requires |points| > 0
    requires forall k :: 0 <= k < |points| ==> |points[k]| == |points[0]|
    requires forall t, r :: 0 <= t < |batches| && r in batches[t].index ==> 0 <= r < nSamplesNew
    ensures |init| == nSamplesNew
    ensures init == Replay(ZeroRows(nSamplesNew, |points[0]|),
                           Writes(points, DecodeAll(points, decoder), loss, batches))
    ensures forall r :: 0 <= r < nSamplesNew ==>
      match LastWrite(Writes(points, DecodeAll(points, decoder), loss, batches), r)
      case None => init[r] == Zeros(|points[0]|)
      case Some(t) => r in batches[t].index
                      && init[r] == BatchChoice(points, DecodeAll(points, decoder), loss, batches[t])
    ensures forall r :: 0 <= r < nSamplesNew ==>
      |init[r]| == |points[0]| && (init[r] == Zeros(|points[0]|) || init[r] in points)
  {
    var potentialReps := PreparePotentialReps([points]);
    var xTest := DecodeAll(potentialReps, decoder);
    var width := |potentialReps[0]|;
    var repInitValues := new Vec[nSamplesNew](_ => Zeros(width));
    assert repInitValues[..] == ZeroRows(nSamplesNew, width);
    ghost var ws := Writes(potentialReps, xTest, loss, batches);

    for t := 0 to |batches|
      invariant repInitValues[..] == Replay(ZeroRows(nSamplesNew, width), ws[..t])
    {
      var b := batches[t];
      var lossVec := ScoreAll(xTest, (x: R) => loss(x, b.obs));
      assert lossVec == Scores(xTest, (x: R) => loss(x, b.obs));
      var bestFitId := ArgMin(lossVec);
      Scatter(repInitValues, b.index, potentialReps[bestFitId]);
      ReplayStep(ZeroRows(nSamplesNew, width), ws, t);
    }
    assert ws[..|batches|] == ws;
    init := repInitValues[..];

    forall r | 0 <= r < nSamplesNew
      ensures match LastWrite(ws, r)
              case None => init[r] == Zeros(width)
              case Some(t) => r in batches[t].index && init[r] == BatchChoice(points, xTest, loss, batches[t])
      ensures |init[r]| == width && (init[r] == Zeros(width) || init[r] in points)
    {
      ReplayAt(ZeroRows(nSamplesNew, width), ws, r);
    }
  }
}
