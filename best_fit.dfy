/** The best-fit initialisation shared by the three inference variants:
    score every candidate latent vector against a batch, take the first
    minimal score, and write the chosen candidate into rows of a zero
    initialised buffer. The decoder, the loss and the mixture are opaque:
    they enter as function-typed parameters. */
module BestFit {
  import opened Common

  /** A latent vector (one row of a representation tensor). */
  type Vec = seq<real>

  function Zeros(d: nat): Vec
  {
    seq(d, _ => 0.0)
  }

  /** The all-zero `rows x d` buffer of `torch.zeros((rows, d))`. */
  function ZeroRows(rows: nat, d: nat): seq<Vec>
  {
    seq(rows, _ => Zeros(d))
  }

  /** `prepare_potential_reps`: the first sample list only; the combination
      of several lists that its description mentions is never made. */
  function PreparePotentialReps<T>(sampleList: seq<T>): T
    requires |sampleList| > 0
  {
    sampleList[0]
  }

  /** Only the first list matters: whatever follows it is ignored. */
  lemma PrepareIgnoresLaterLists<T>(first: T, rest: seq<T>)
    ensures PreparePotentialReps([first] + rest) == first
  {
  }

  /** One decoder pass over all candidates: one reconstruction each, in order. */
  function DecodeAll<R>(cands: seq<Vec>, decoder: Vec -> R): (recons: seq<R>)
    ensures |recons| == |cands|
    ensures forall k :: 0 <= k < |cands| ==> recons[k] == decoder(cands[k])
  {
    if cands == [] then [] else [decoder(cands[0])] + DecodeAll(cands[1..], decoder)
  }

  /** The loss vector of one batch: the score of every item, in order. */
  function Scores<X>(xs: seq<X>, score: X -> real): seq<real>
  {
    seq(|xs|, k requires 0 <= k < |xs| => score(xs[k]))
  }

  /** The inner loop `loss = torch.cat((loss, l.unsqueeze(0)))` over the items. */
  method ScoreAll<X>(xs: seq<X>, score: X -> real) returns (loss: seq<real>)
    ensures |loss| == |xs|
    ensures forall k :: 0 <= k < |xs| ==> loss[k] == score(xs[k])
  {
    loss := [];
    for k := 0 to |xs|
      invariant |loss| == k
      invariant forall j :: 0 <= j < k ==> loss[j] == score(xs[j])
    {
      loss := loss + [score(xs[k])];
    }
  }

  /** `torch.argmin` of a non-empty loss vector: a minimal entry, and the
      first of them when several are minimal. */
  function ArgMin(loss: seq<real>): (k: nat)
    requires |loss| > 0
    ensures k < |loss|
    ensures forall j :: 0 <= j < |loss| ==> loss[k] <= loss[j]
    ensures forall j :: 0 <= j < k ==> loss[k] < loss[j]
  {
    if |loss| == 1 then 0
    else
      var k := ArgMin(loss[..|loss| - 1]);
      if loss[|loss| - 1] < loss[k] then |loss| - 1 else k
  }

  /** The selection is determined by the loss vector: any index that is
      minimal and before which nothing is as small is the arg-minimum. */
  lemma ArgMinUnique(loss: seq<real>, k: nat)
    requires k < |loss|
    requires forall j :: 0 <= j < |loss| ==> loss[k] <= loss[j]
    requires forall j :: 0 <= j < k ==> loss[k] < loss[j]
    ensures ArgMin(loss) == k
  {
  }

  /** When every candidate scores the same, the first one is chosen. */
  lemma ArgMinOfTies(loss: seq<real>)
    requires |loss| > 0
    requires forall j :: 0 <= j < |loss| ==> loss[j] == loss[0]
    ensures ArgMin(loss) == 0
  {
  }

  /** The candidate a batch selects: the one at the arg-minimum of its losses. */
  function Pick(cands: seq<Vec>, loss: seq<real>): (v: Vec)
    requires 0 < |loss| == |cands|
    ensures v in cands
  {
    cands[ArgMin(loss)]
  }

  /** One batch of (sample, context) rows: the observed counts and library
      sizes the loss reads (opaque), and the sample and context index of
      every row. */
  datatype PairBatch<O> = PairBatch(obs: O, sampleIdx: seq<int>, mutIdx: seq<int>)

  // ---------------------------------------------------------------------------
  // The buffer writes

  /** One write of the initialisation loop: a chosen candidate and the rows it lands in. */
  datatype Write = Write(rows: seq<int>, value: Vec)

  /** `buf[rows, :] = value`: every listed row becomes `value`, the others stay. */
  function Overwrite(buf: seq<Vec>, rows: seq<int>, value: Vec): (r: seq<Vec>)
    ensures |r| == |buf|
    ensures forall i :: 0 <= i < |buf| && i in rows ==> r[i] == value
    ensures forall i :: 0 <= i < |buf| && i !in rows ==> r[i] == buf[i]
  {
    seq(|buf|, r requires 0 <= r < |buf| => if r in rows then value else buf[r])
  }

  /** Writing the same rows twice: only the second value survives, and writing
      a value already there changes nothing. */
  lemma OverwriteTwice(buf: seq<Vec>, rows: seq<int>, first: Vec, second: Vec)
    ensures Overwrite(Overwrite(buf, rows, first), rows, second) == Overwrite(buf, rows, second)
    ensures Overwrite(Overwrite(buf, rows, first), rows, first) == Overwrite(buf, rows, first)
  {
    var once, twice := Overwrite(buf, rows, second), Overwrite(Overwrite(buf, rows, first), rows, second);
    assert forall i :: 0 <= i < |buf| ==> twice[i] == once[i];
  }

  /** The buffer after the writes happened in order. */
  function Replay(buf: seq<Vec>, writes: seq<Write>): (r: seq<Vec>)
    ensures |r| == |buf|
    decreases |writes|
  {
    if writes == [] then buf
    else
      var last := writes[|writes| - 1];
      Overwrite(Replay(buf, writes[..|writes| - 1]), last.rows, last.value)
  }

  /** The last write that touches `row`, if any. */
  function LastWrite(writes: seq<Write>, row: int): (t: Option<nat>)
    ensures t.Some? ==> t.value < |writes| && row in writes[t.value].rows
    ensures t.Some? ==> forall u :: t.value < u < |writes| ==> row !in writes[u].rows
    ensures t.None? ==> forall u :: 0 <= u < |writes| ==> row !in writes[u].rows
    decreases |writes|
  {
    if writes == [] then None
    else if row in writes[|writes| - 1].rows then Some(|writes| - 1)
    else LastWrite(writes[..|writes| - 1], row)
  }

  /** Each row of the replayed buffer holds the value of the last write that
      touched it, or its initial value when no write did. */
  lemma {:induction false} ReplayAt(buf: seq<Vec>, writes: seq<Write>, row: nat)
    requires row < |buf|
    ensures Replay(buf, writes)[row] ==
      match LastWrite(writes, row)
      case None => buf[row]
      case Some(t) => writes[t].value
    decreases |writes|
  {
    if writes != [] {
      ReplayAt(buf, writes[..|writes| - 1], row);
    }
  }

  /** Replaying one more write is one more overwrite. */
  lemma ReplayStep(buf: seq<Vec>, writes: seq<Write>, t: nat)
    requires t < |writes|
    ensures Replay(buf, writes[..t + 1]) == Overwrite(Replay(buf, writes[..t]), writes[t].rows, writes[t].value)
  {
    assert writes[..t + 1][..t] == writes[..t];
  }

  /** The scatter `rep_init_values[rows, :] = value`, in place. */
  method Scatter(buf: array<Vec>, rows: seq<int>, value: Vec)
    requires forall r :: r in rows ==> 0 <= r < buf.Length
    modifies buf
    ensures buf[..] == Overwrite(old(buf[..]), rows, value)
  {
    forall r | 0 <= r < buf.Length && r in rows {
      buf[r] := value;
    }
  }
}
