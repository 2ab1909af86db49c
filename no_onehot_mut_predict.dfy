/** The best-fit initialisation of `learn_new_representation` in the variant
    that reuses the context representations found in training: every batch
    scores each sample candidate together with the trained context vectors
    of its rows, and the first best candidate is written into the single row
    of the batch's first sample. */
module NoOnehotPredict {
  import opened Common
  import opened BestFit

  /** `mut_rep[mut_idx]`: the trained context vectors, read by index. */
  function Gather(table: seq<Vec>, ids: seq<int>): (rows: seq<Vec>)
    requires forall j :: 0 <= j < |ids| ==> 0 <= ids[j] < |table|
    ensures |rows| == |ids|
    ensures forall j :: 0 <= j < |ids| ==> rows[j] == table[ids[j]]
  {
    if ids == [] then [] else [table[ids[0]]] + Gather(table, ids[1..])
  }

  /** `rep.unsqueeze(0).expand(count, -1)`: the candidate repeated once per row. */
  function Expand(rep: Vec, count: nat): (rows: seq<Vec>)
    ensures |rows| == count
    ensures forall j :: 0 <= j < count ==> rows[j] == rep
  {
    if count == 0 then [] else [rep] + Expand(rep, count - 1)
  }

  /** Every context index of every batch addresses a trained context vector. */
  ghost predicate ContextsInRange<O>(mutRep: seq<Vec>, batches: seq<PairBatch<O>>)
  {
    forall t, j :: 0 <= t < |batches| && 0 <= j < |batches[t].mutIdx| ==> 0 <= batches[t].mutIdx[j] < |mutRep|
  }

  /** The loss of one sample candidate against batch `b`: the decoder's first
      output for the candidate and the batch's trained context vectors. */
  function CandidateLoss<R, O>(mutRep: seq<Vec>, forward: (seq<Vec>, seq<Vec>) -> R,
                               loss: (R, O) -> real, b: PairBatch<O>, rep: Vec): real
    requires forall j :: 0 <= j < |b.mutIdx| ==> 0 <= b.mutIdx[j] < |mutRep|
  {
    loss(forward(Expand(rep, |b.mutIdx|), Gather(mutRep, b.mutIdx)), b.obs)
  }

  /** A candidate's loss reads the trained context table only at the batch's
      own context indices: tables that agree there give the same loss. */
  lemma CandidateLossLocal<R, O>(mutRep: seq<Vec>, other: seq<Vec>, forward: (seq<Vec>, seq<Vec>) -> R,
                                 loss: (R, O) -> real, b: PairBatch<O>, rep: Vec)
    requires forall j :: 0 <= j < |b.mutIdx| ==> 0 <= b.mutIdx[j] < |mutRep| && 0 <= b.mutIdx[j] < |other|
    requires forall j :: 0 <= j < |b.mutIdx| ==> mutRep[b.mutIdx[j]] == other[b.mutIdx[j]]
    ensures CandidateLoss(mutRep, forward, loss, b, rep) == CandidateLoss(other, forward, loss, b, rep)
  {
    assert Gather(mutRep, b.mutIdx) == Gather(other, b.mutIdx);
  }

  /** The candidate batch `b` selects: the first with the smallest loss. */
  function BatchChoice<R, O>(cands: seq<Vec>, mutRep: seq<Vec>, forward: (seq<Vec>, seq<Vec>) -> R,
                             loss: (R, O) -> real, b: PairBatch<O>): Vec
    requires |cands| > 0
    requires forall j :: 0 <= j < |b.mutIdx| ==> 0 <= b.mutIdx[j] < |mutRep|
  {
    Pick(cands, Scores(cands, (rep: Vec) => CandidateLoss(mutRep, forward, loss, b, rep)))
  }

  /** The writes of the loop: batch `t` writes only row `sample_idx[0]`. */
  function Writes<R, O>(cands: seq<Vec>, mutRep: seq<Vec>, forward: (seq<Vec>, seq<Vec>) -> R,
                        loss: (R, O) -> real, batches: seq<PairBatch<O>>): (ws: seq<Write>)
    requires |cands| > 0
    requires ContextsInRange(mutRep, batches)
    requires forall t :: 0 <= t < |batches| ==> |batches[t].sampleIdx| > 0
    ensures |ws| == |batches|
    ensures forall t :: 0 <= t < |batches| ==> ws[t].rows == [batches[t].sampleIdx[0]]
  {
    seq(|batches|, t requires 0 <= t < |batches| =>
      Write([batches[t].sampleIdx[0]], BatchChoice(cands, mutRep, forward, loss, batches[t])))
  }

  /** One row of the buffer after the loop: the choice of the last batch
      whose first sample it is, or zero when there is none. */
  lemma InitRow<R, O>(points: seq<Vec>, mutRep: seq<Vec>, forward: (seq<Vec>, seq<Vec>) -> R,
                      loss: (R, O) -> real, batches: seq<PairBatch<O>>, nSample: nat, r: nat)
    requires |points| > 0
    requires forall k :: 0 <= k < |points| ==> |points[k]| == |points[0]|
    requires ContextsInRange(mutRep, batches)
    requires forall t :: 0 <= t < |batches| ==> |batches[t].sampleIdx| > 0
    requires r < nSample
    ensures var init := Replay(ZeroRows(nSample, |points[0]|), Writes(points, mutRep, forward, loss, batches));
      && (match LastWrite(Writes(points, mutRep, forward, loss, batches), r)
          case None => init[r] == Zeros(|points[0]|)
                       && forall t :: 0 <= t < |batches| ==> batches[t].sampleIdx[0] != r
          case Some(t) => batches[t].sampleIdx[0] == r
                          && (forall u :: t < u < |batches| ==> batches[u].sampleIdx[0] != r)
                          && init[r] == BatchChoice(points, mutRep, forward, loss, batches[t]))
      && |init[r]| == |points[0]| && (init[r] == Zeros(|points[0]|) || init[r] in points)
  {
    var ws := Writes(points, mutRep, forward, loss, batches);
    ReplayAt(ZeroRows(nSample, |points[0]|), ws, r);
    match LastWrite(ws, r)
    case None =>
      forall t | 0 <= t < |batches| ensures batches[t].sampleIdx[0] != r {
        assert r !in ws[t].rows;
      }
    case Some(t) =>
      forall u | t < u < |batches| ensures batches[u].sampleIdx[0] != r {
        assert r !in ws[u].rows;
      }
  }

  /** The initial sample representations: `Nsample` rows of the candidates'
      width. A sample that is first in some batch holds the choice of the last
      such batch; every other sample keeps its zero row. */
  method LearnInit<R, O>(points: seq<Vec>, mutRep: seq<Vec>, forward: (seq<Vec>, seq<Vec>) -> R,
                         loss: (R, O) -> real, batches: seq<PairBatch<O>>, nSample: nat)
    returns (init: seq<Vec>)
    requires |points| > 0
    requires forall k :: 0 <= k < |points| ==> |points[k]| == |points[0]|
    requires ContextsInRange(mutRep, batches)
    requires forall t :: 0 <= t < |batches| ==> |batches[t].sampleIdx| > 0
    requires forall t :: 0 <= t < |batches| ==> 0 <= batches[t].sampleIdx[0] < nSample
    ensures |init| == nSample
    ensures init == Replay(ZeroRows(nSample, |points[0]|), Writes(points, mutRep, forward, loss, batches))
    ensures forall r :: 0 <= r < nSample ==>
      match LastWrite(Writes(points, mutRep, forward, loss, batches), r)
      case None => init[r] == Zeros(|points[0]|)
                   && forall t :: 0 <= t < |batches| ==> batches[t].sampleIdx[0] != r
      case Some(t) => batches[t].sampleIdx[0] == r
                      && (forall u :: t < u < |batches| ==> batches[u].sampleIdx[0] != r)
                      && init[r] == BatchChoice(points, mutRep, forward, loss, batches[t])
    ensures forall r :: 0 <= r < nSample ==>
      |init[r]| == |points[0]| && (init[r] == Zeros(|points[0]|) || init[r] in points)
  {
    var potentialReps := points;
    var width := |potentialReps[0]|;
    var repInitValues := new Vec[nSample](_ => Zeros(width));
    assert repInitValues[..] == ZeroRows(nSample, width);
    ghost var ws := Writes(potentialReps, mutRep, forward, loss, batches);

    for t := 0 to |batches|
      invariant repInitValues[..] == Replay(ZeroRows(nSample, width), ws[..t])
    {
      var b := batches[t];
      var lossVec := ScoreAll(potentialReps, (rep: Vec) => CandidateLoss(mutRep, forward, loss, b, rep));
      assert lossVec == Scores(potentialReps, (rep: Vec) => CandidateLoss(mutRep, forward, loss, b, rep));
      var bestFitId := ArgMin(lossVec);
      Scatter(repInitValues, [b.sampleIdx[0]], potentialReps[bestFitId]);
      ReplayStep(ZeroRows(nSample, width), ws, t);
    }
    assert ws[..|batches|] == ws;
    init := repInitValues[..];

    forall r | 0 <= r < nSample {
      InitRow(points, mutRep, forward, loss, batches, nSample, r);
    }
  }

  /** The trained context table is only read at the indices the batches use:
      two tables that agree there give the same writes, hence the same
      initial sample representations. */
  lemma ContextTableReadOnlyByIndex<R, O>(cands: seq<Vec>, mutRep1: seq<Vec>, mutRep2: seq<Vec>,
                                          forward: (seq<Vec>, seq<Vec>) -> R, loss: (R, O) -> real,
                                          batches: seq<PairBatch<O>>)
    requires |cands| > 0
    requires ContextsInRange(mutRep1, batches) && ContextsInRange(mutRep2, batches)
    requires forall t :: 0 <= t < |batches| ==> |batches[t].sampleIdx| > 0
    requires forall t, j :: 0 <= t < |batches| && 0 <= j < |batches[t].mutIdx| ==>
      mutRep1[batches[t].mutIdx[j]] == mutRep2[batches[t].mutIdx[j]]
    ensures Writes(cands, mutRep1, forward, loss, batches) == Writes(cands, mutRep2, forward, loss, batches)
  {
    forall t | 0 <= t < |batches|
      ensures BatchChoice(cands, mutRep1, forward, loss, batches[t]) == BatchChoice(cands, mutRep2, forward, loss, batches[t])
    {
      var b := batches[t];
      assert Gather(mutRep1, b.mutIdx) == Gather(mutRep2, b.mutIdx);
      assert Scores(cands, (rep: Vec) => CandidateLoss(mutRep1, forward, loss, b, rep))
          == Scores(cands, (rep: Vec) => CandidateLoss(mutRep2, forward, loss, b, rep));
    }
  }
}
