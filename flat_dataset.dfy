/** The flattened (sample, mutation-context) index of `FlattenedDataset`:
    the column split around the label column, the per-sample scaling value,
    the bracketed mutation label of every context name, the per-name
    nucleotide one-hot matrix, and the `__len__` / `__getitem__` lookups. */
module FlatDataset {
  import opened Common
  import opened Scaling

  // ---------------------------------------------------------------------------
  // Input table

  /** One cell of the input table: a count, or text (the tumour-type label). */
  datatype Cell = Num(x: real) | Text(s: string)

  /** The input data frame: column names and one row of cells per sample. */
  datatype Frame = Frame(columns: seq<string>, rows: seq<seq<Cell>>)

  /** A data frame is rectangular: every row has one cell per column. */
  ghost predicate WellFormed(f: Frame)
  {
    forall s :: 0 <= s < |f.rows| ==> |f.rows[s]| == |f.columns|
  }

  /** Positional column lookup with Python's negative indexing
      (`iloc[:, p]`): `None` is the IndexError raised out of range. */
  function ResolvePosition(width: nat, p: int): (r: Option<nat>)
    ensures r.Some? <==> -(width as int) <= p < width
    ensures r.Some? ==> r.value < width && (r.value == p || r.value == p + width)
    ensures r.Some? && p < 0 ==> r.value >= width + p
  {
    if 0 <= p < width then Some(p)
    else if -(width as int) <= p < 0 then Some(p + width)
    else None
  }

  /** Positions of the columns that survive `drop` of the label column.
      pandas drops by name, so every column sharing the label's name goes. */
  function KeptPositions(columns: seq<string>, dropped: string): (r: seq<nat>)
    ensures forall i :: 0 <= i < |r| ==> r[i] < |columns| && columns[r[i]] != dropped
    ensures forall i, j :: 0 <= i < j < |r| ==> r[i] < r[j]
    ensures forall j :: 0 <= j < |columns| && columns[j] != dropped ==> j in r
    decreases |columns|
  {
    if columns == [] then []
    else
      var init := KeptPositions(columns[..|columns| - 1], dropped);
      if columns[|columns| - 1] != dropped then init + [|columns| - 1] else init
  }

  /** The entries of `row` at the positions `keep`, in order. */
  function Project<T>(row: seq<T>, keep: seq<nat>): seq<T>
    requires forall i :: 0 <= i < |keep| ==> keep[i] < |row|
  {
    seq(|keep|, i requires 0 <= i < |keep| => row[keep[i]])
  }

  // ---------------------------------------------------------------------------
  // Mutation labels: the first `[X>Y]` token of the upper-cased name

  function UpperChar(c: char): char
  {
    if 'a' <= c <= 'z' then (c as int - 32) as char else c
  }

  /** `str.upper()` on ASCII letters. */
  function Upper(s: string): (u: string)
    ensures |u| == |s|
  {
    seq(|s|, i requires 0 <= i < |s| => UpperChar(s[i]))
  }

  predicate IsNucleotide(c: char)
  {
    c == 'A' || c == 'C' || c == 'G' || c == 'T'
  }

  /** The pattern `\[([ACGT]>[ACGT])\]` matches `u` at position `p`. */
  predicate TokenAt(u: string, p: nat)
  {
    p + 5 <= |u| && u[p] == '[' && IsNucleotide(u[p + 1]) && u[p + 2] == '>'
    && IsNucleotide(u[p + 3]) && u[p + 4] == ']'
  }

  /** `re.search` from position `from`: the leftmost match, if any. */
  function FirstToken(u: string, from: nat): (r: Option<nat>)
    ensures r.Some? ==> from <= r.value && TokenAt(u, r.value)
    ensures r.Some? ==> forall q :: from <= q < r.value ==> !TokenAt(u, q)
    ensures r.None? ==> forall q: nat :: from <= q ==> !TokenAt(u, q)
    decreases |u| - from
  {
    if from + 5 > |u| then None
    else if TokenAt(u, from) then Some(from)
    else FirstToken(u, from + 1)
  }

  /** The mutation label of one context name: `[X>Y]` from the first match
      in the upper-cased name, otherwise `[UNK]`. */
  function MutLabel(name: string): (mutLabel: string)
    ensures |mutLabel| == 5
  {
    var u := Upper(name);
    match FirstToken(u, 0)
    case Some(p) => "[" + u[p + 1..p + 4] + "]"
    case None => "[UNK]"
  }

  /** The label is `[UNK]` exactly when the upper-cased name holds no token;
      otherwise it is the text of the leftmost token. */
  lemma MutLabelSpec(name: string)
    ensures MutLabel(name) == "[UNK]" <==> forall q: nat :: !TokenAt(Upper(name), q)
    ensures MutLabel(name) != "[UNK]" ==>
      exists p: nat :: TokenAt(Upper(name), p) && MutLabel(name) == Upper(name)[p..p + 5]
                       && forall q: nat :: q < p ==> !TokenAt(Upper(name), q)
  {
    var u := Upper(name);
    match FirstToken(u, 0)
    case Some(p) =>
      var found := "[" + u[p + 1..p + 4] + "]";
      assert found == u[p..p + 5];
      assert found[1] != 'U';
      assert MutLabel(name) == found;
    case None =>
  }

  // ---------------------------------------------------------------------------
  // Nucleotide one-hot matrices

  /** `re.findall(r'[ACGT]', u)`: the nucleotide letters of `u`, in order. */
  function Nucleotides(u: string): (r: string)
    ensures |r| <= |u|
    ensures forall i :: 0 <= i < |r| ==> IsNucleotide(r[i])
  {
    if u == [] then []
    else (if IsNucleotide(u[0]) then [u[0]] else []) + Nucleotides(u[1..])
  }

  /** The scan is compositional: it keeps the letters of each part, in order. */
  lemma {:induction false} NucleotidesAppend(u: string, v: string)
    ensures Nucleotides(u + v) == Nucleotides(u) + Nucleotides(v)
  {
    if u != [] {
      assert (u + v)[1..] == u[1..] + v;
      NucleotidesAppend(u[1..], v);
    } else {
      assert u + v == v;
    }
  }

  /** Every A/C/G/T occurrence is kept and nothing else is. */
  lemma {:induction false} NucleotidesCount(u: string, c: char)
    ensures multiset(Nucleotides(u))[c] == if IsNucleotide(c) then multiset(u)[c] else 0
  {
    if u != [] {
      NucleotidesCount(u[1..], c);
      assert u == [u[0]] + u[1..];
    }
  }

  /** The column of a nucleotide in the encoder table. */
  function NucIndex(c: char): (j: nat)
    requires IsNucleotide(c)
    ensures j < 4
  {
    match c
    case 'A' => 0
    case 'C' => 1
    case 'G' => 2
    case 'T' => 3
  }

  /** `nuc_to_vec`: the four-entry encoding of one nucleotide. */
  function OneHotRow(c: char): (row: seq<real>)
    requires IsNucleotide(c)
    ensures |row| == 4
    ensures forall j :: 0 <= j < 4 ==> row[j] == if j == NucIndex(c) then 1.0 else 0.0
  {
    match c
    case 'A' => [1.0, 0.0, 0.0, 0.0]
    case 'C' => [0.0, 1.0, 0.0, 0.0]
    case 'G' => [0.0, 0.0, 1.0, 0.0]
    case 'T' => [0.0, 0.0, 0.0, 1.0]
  }

  /** Distinct nucleotides get distinct one-hot rows. */
  lemma OneHotRowInjective(c: char, d: char)
    requires IsNucleotide(c) && IsNucleotide(d)
    ensures OneHotRow(c) == OneHotRow(d) <==> c == d
  {
    if OneHotRow(c) == OneHotRow(d) {
      assert OneHotRow(c)[NucIndex(c)] == 1.0;
      assert OneHotRow(d)[NucIndex(c)] == 1.0;
    }
  }

  /** `onehot_kmer`: one row per nucleotide letter of the upper-cased name. */
  function OneHotKmer(name: string): (m: seq<seq<real>>)
    ensures |m| == |Nucleotides(Upper(name))|
    ensures Rectangular(m, 4)
  {
    var nucs := Nucleotides(Upper(name));
    seq(|nucs|, i requires 0 <= i < |nucs| => OneHotRow(nucs[i]))
  }

  /** The cache `kmer_onehots`: one entry per distinct context name. */
  function KmerOnehots(names: seq<string>): (m: map<string, seq<seq<real>>>)
    ensures m.Keys == set j | 0 <= j < |names| :: names[j]
    ensures forall n :: n in names ==> m[n] == OneHotKmer(n)
  {
    map name | name in names :: OneHotKmer(name)
  }

  /** The flattened one-hot of a name has four entries per nucleotide letter:
      entry `k` belongs to letter `k / 4` and is 1 exactly at that letter's column. */
  lemma OneHotFlatAt(name: string)
    ensures |Flatten(OneHotKmer(name))| == 4 * |Nucleotides(Upper(name))|
    ensures forall k :: 0 <= k < |Flatten(OneHotKmer(name))| ==>
      k / 4 < |Nucleotides(Upper(name))| &&
      Flatten(OneHotKmer(name))[k] == if k % 4 == NucIndex(Nucleotides(Upper(name))[k / 4]) then 1.0 else 0.0
  {
    var rows := OneHotKmer(name);
    FlattenLength(rows, 4);
    forall k | 0 <= k < |Flatten(rows)|
      ensures k / 4 < |Nucleotides(Upper(name))|
      ensures Flatten(rows)[k] == if k % 4 == NucIndex(Nucleotides(Upper(name))[k / 4]) then 1.0 else 0.0
    {
      FlattenAt(rows, 4, k);
    }
  }

  // ---------------------------------------------------------------------------
  // The flattened index

  /** The nested comprehension before flattening: row `s` lists the pairs of sample `s`. */
  function PairRows(n: nat, contexts: nat): (rows: seq<seq<(nat, nat)>>)
    ensures |rows| == n && Rectangular(rows, contexts)
    ensures forall s, m :: 0 <= s < n && 0 <= m < contexts ==> rows[s][m] == (s, m)
  {
    seq(n, s requires 0 <= s < n =>
      seq(contexts, m requires 0 <= m < contexts => (s as nat, m as nat)))
  }

  /** `[(s, m) for s in range(n) for m in range(contexts)]`. */
  function FlattenedIndices(n: nat, contexts: nat): (r: seq<(nat, nat)>)
    ensures |r| == n * contexts
  {
    FlattenLength(PairRows(n, contexts), contexts);
    Flatten(PairRows(n, contexts))
  }

  /** The index enumerates the (sample, context) pairs with the context
      varying fastest: entry `k` is `(k div contexts, k mod contexts)`. */
  lemma FlattenedIndicesAt(n: nat, contexts: nat, k: nat)
    requires k < |FlattenedIndices(n, contexts)|
    ensures contexts > 0 && FlattenedIndices(n, contexts)[k] == (RowOf(k, contexts), ColOf(k, contexts))
  {
    FlattenAt(PairRows(n, contexts), contexts, k);
  }

  /** Every entry of the index names an existing sample and context. */
  lemma FlattenedIndexBounds(n: nat, contexts: nat)
    ensures forall k :: 0 <= k < |FlattenedIndices(n, contexts)| ==>
      FlattenedIndices(n, contexts)[k].0 < n && FlattenedIndices(n, contexts)[k].1 < contexts
  {
    forall k | 0 <= k < |FlattenedIndices(n, contexts)|
      ensures FlattenedIndices(n, contexts)[k].0 < n && FlattenedIndices(n, contexts)[k].1 < contexts
    {
      FlattenAt(PairRows(n, contexts), contexts, k);
    }
  }

  /** Every pair occurs exactly once: pair `(s, m)` sits at `PairIndex(s, m)`,
      decoding a position and re-encoding it gives the position back, and no
      two positions hold the same pair. */
  lemma FlattenedIndexRoundTrip(n: nat, contexts: nat)
    ensures forall s, m :: 0 <= s < n && 0 <= m < contexts ==>
      PairIndex(s, m, contexts) < |FlattenedIndices(n, contexts)|
      && FlattenedIndices(n, contexts)[PairIndex(s, m, contexts)] == (s, m)
    ensures forall k :: 0 <= k < |FlattenedIndices(n, contexts)| ==>
      PairIndex(FlattenedIndices(n, contexts)[k].0, FlattenedIndices(n, contexts)[k].1, contexts) == k
    ensures forall k1, k2 :: 0 <= k1 < k2 < |FlattenedIndices(n, contexts)| ==>
      FlattenedIndices(n, contexts)[k1] != FlattenedIndices(n, contexts)[k2]
  {
    var flat := FlattenedIndices(n, contexts);
    forall s, m | 0 <= s < n && 0 <= m < contexts
      ensures PairIndex(s, m, contexts) < |flat| && flat[PairIndex(s, m, contexts)] == (s, m)
    {
      FlattenAtPair(PairRows(n, contexts), contexts, s, m);
    }
    forall k | 0 <= k < |flat|
      ensures PairIndex(flat[k].0, flat[k].1, contexts) == k
    {
      FlattenAt(PairRows(n, contexts), contexts, k);
      DecodeEncode(k, contexts);
    }
  }

  // ---------------------------------------------------------------------------
  // The dataset

  datatype LoadError =
    | LabelPositionOutOfRange   // `iloc[:, label_position]` raises IndexError
    | NonNumericCell            // a kept cell is not a number: the tensor cannot be built
    | InvalidScalingType        // the ValueError of the scaling branch
    | EmptyReduction            // a mean or max over a row with no context columns

  /** The fields `FlattenedDataset.__init__` computes. */
  datatype Dataset = Dataset(
    scalingType: ScalingType,
    labelPosition: int,
    labels: seq<Cell>,
    kmerNames: seq<string>,
    mutLabels: seq<string>,
    mutMatrix: seq<seq<real>>,
    numSamples: nat,
    numMuts: nat,
    libValues: seq<real>,
    flattenedIndices: seq<(nat, nat)>,
    kmerOnehots: map<string, seq<seq<real>>>)

  /** The invariants tying the fields of a constructed dataset together. */
  ghost predicate Valid(d: Dataset)
  {
    && |d.mutMatrix| == d.numSamples
    && Rectangular(d.mutMatrix, d.numMuts)
    && |d.kmerNames| == d.numMuts
    && |d.mutLabels| == d.numMuts
    && |d.labels| == d.numSamples
    && (d.scalingType != Sum ==> d.numMuts > 0)
    && |d.libValues| == d.numSamples
    && (forall s :: 0 <= s < d.numSamples ==> d.libValues[s] == LibValue(d.mutMatrix[s], d.scalingType))
    && (forall m :: 0 <= m < d.numMuts ==> d.mutLabels[m] == MutLabel(d.kmerNames[m]))
    && d.flattenedIndices == FlattenedIndices(d.numSamples, d.numMuts)
    && d.kmerOnehots == KmerOnehots(d.kmerNames)
  }

  /** All cells outside the dropped columns are numbers. */
  predicate NumericOutside(f: Frame, keep: seq<nat>)
    requires WellFormed(f)
    requires forall i :: 0 <= i < |keep| ==> keep[i] < |f.columns|
  {
    forall s, i :: 0 <= s < |f.rows| && 0 <= i < |keep| ==> f.rows[s][keep[i]].Num?
  }

  /** The columns that survive dropping the label column at position `p`. */
  function Kept(f: Frame, p: nat): seq<nat>
    requires p < |f.columns|
  {
    KeptPositions(f.columns, f.columns[p])
  }

  function Counts(f: Frame, keep: seq<nat>): (matrix: seq<seq<real>>)
    requires WellFormed(f)
    requires forall i :: 0 <= i < |keep| ==> keep[i] < |f.columns|
    requires NumericOutside(f, keep)
    ensures |matrix| == |f.rows| && Rectangular(matrix, |keep|)
    ensures forall s, i :: 0 <= s < |f.rows| && 0 <= i < |keep| ==> f.rows[s][keep[i]] == Num(matrix[s][i])
  {
    seq(|f.rows|, s requires 0 <= s < |f.rows| =>
      seq(|keep|, i requires 0 <= i < |keep| => f.rows[s][keep[i]].x))
  }

  /** `lib_values`: the scaling value of every sample row. */
  function LibValues(matrix: seq<seq<real>>, width: nat, mode: ScalingType): (libs: seq<real>)
    requires Rectangular(matrix, width) && (mode != Sum ==> width > 0)
    ensures |libs| == |matrix|
    ensures forall s :: 0 <= s < |matrix| ==> libs[s] == LibValue(matrix[s], mode)
  {
    seq(|matrix|, s requires 0 <= s < |matrix| => LibValue(matrix[s], mode))
  }

  /** The fields of a dataset whose checks all passed, for label column `p`
      and scaling mode `mode`. They satisfy the field invariants; there is one
      label per row, taken from column `p`, and the context names are column
      names other than the label column's name. */
  function Assemble(f: Frame, labelPosition: int, p: nat, mode: ScalingType): (d: Dataset)
    requires WellFormed(f) && p < |f.columns|
    requires NumericOutside(f, Kept(f, p))
    requires mode != Sum ==> |Kept(f, p)| > 0
    ensures Valid(d)
    ensures d.scalingType == mode && d.labelPosition == labelPosition
    ensures d.numSamples == |f.rows|
    ensures forall s :: 0 <= s < |f.rows| ==> d.labels[s] == f.rows[s][p]
    ensures forall m :: 0 <= m < d.numMuts ==> d.kmerNames[m] in f.columns && d.kmerNames[m] != f.columns[p]
  {
    var keep := Kept(f, p);
    var kmerNames := Project(f.columns, keep);
    var matrix := Counts(f, keep);
    Dataset(
      mode,
      labelPosition,
      seq(|f.rows|, s requires 0 <= s < |f.rows| => f.rows[s][p]),
      kmerNames,
      seq(|kmerNames|, m requires 0 <= m < |kmerNames| => MutLabel(kmerNames[m])),
      matrix,
      |f.rows|,
      |keep|,
      LibValues(matrix, |keep|, mode),
      FlattenedIndices(|f.rows|, |keep|),
      KmerOnehots(kmerNames))
  }

  /** Context `m` of an assembled dataset is the `m`-th column that survives
      the drop: it carries that column's name and, in every row, its count. */
  lemma AssembleContexts(f: Frame, labelPosition: int, p: nat, mode: ScalingType)
    requires WellFormed(f) && p < |f.columns|
    requires NumericOutside(f, Kept(f, p))
    requires mode != Sum ==> |Kept(f, p)| > 0
    ensures var d, keep := Assemble(f, labelPosition, p, mode), Kept(f, p);
      && d.numMuts == |keep|
      && (forall m :: 0 <= m < |keep| ==> d.kmerNames[m] == f.columns[keep[m]])
      && (forall s, m :: 0 <= s < |f.rows| && 0 <= m < |keep| ==> f.rows[s][keep[m]] == Num(d.mutMatrix[s][m]))
  {
  }

  /** What `FlattenedDataset(frame, labelPosition, scalingType)` constructs,
      or the error it raises; the checks come in the constructor's order. A
      label position out of range is exactly the IndexError, and whatever is
      constructed satisfies the field invariants. */
  function Build(f: Frame, labelPosition: int, scalingType: string): (r: Result<Dataset, LoadError>)
    requires WellFormed(f)
    ensures r == Failure(LabelPositionOutOfRange) <==> ResolvePosition(|f.columns|, labelPosition).None?
    ensures r.Success? ==> ResolvePosition(|f.columns|, labelPosition).Some?
    ensures r.Success? ==> Valid(r.value) && r.value.numSamples == |f.rows|
    ensures r.Success? ==> ParseScaling(scalingType).Some? && r.value.scalingType == ParseScaling(scalingType).value
    ensures r.Success? ==> r.value.labelPosition == labelPosition
  {
    match ResolvePosition(|f.columns|, labelPosition)
    case None => Failure(LabelPositionOutOfRange)
    case Some(p) =>
      var keep := Kept(f, p);
      if !NumericOutside(f, keep) then Failure(NonNumericCell)
      else
        match ParseScaling(scalingType)
        case None => Failure(InvalidScalingType)
        case Some(mode) =>
          if mode != Sum && |keep| == 0 then Failure(EmptyReduction)
          else Success(Assemble(f, labelPosition, p, mode))
  }

  /** When construction succeeds and which error it raises otherwise: each
      check fails exactly when its own condition is violated and every
      earlier check passed. */
  lemma BuildSpec(f: Frame, labelPosition: int, scalingType: string)
    requires WellFormed(f)
    ensures var r := Build(f, labelPosition, scalingType);
      var pos := ResolvePosition(|f.columns|, labelPosition);
      && (r == Failure(LabelPositionOutOfRange) <==> !(-|f.columns| <= labelPosition < |f.columns|))
      && (r.Success? <==>
            pos.Some? && NumericOutside(f, Kept(f, pos.value)) && ParseScaling(scalingType).Some?
            && (ParseScaling(scalingType).value != Sum ==> |Kept(f, pos.value)| > 0))
      && (pos.Some? ==> (r == Failure(NonNumericCell) <==> !NumericOutside(f, Kept(f, pos.value))))
      && (pos.Some? && NumericOutside(f, Kept(f, pos.value)) ==>
            (r == Failure(InvalidScalingType) <==> ParseScaling(scalingType).None?))
      && (pos.Some? && NumericOutside(f, Kept(f, pos.value)) && ParseScaling(scalingType).Some? ==>
            (r == Failure(EmptyReduction) <==> ParseScaling(scalingType).value != Sum && |Kept(f, pos.value)| == 0))
  {
  }

  /** A successful construction is the assembly of the frame around the
      resolved label position, with the parsed scaling mode. */
  lemma BuildIsAssemble(f: Frame, labelPosition: int, scalingType: string)
    requires WellFormed(f)
    ensures var r := Build(f, labelPosition, scalingType);
      r.Success? ==>
        && ResolvePosition(|f.columns|, labelPosition).Some?
        && ParseScaling(scalingType).Some?
        && var p := ResolvePosition(|f.columns|, labelPosition).value;
        && NumericOutside(f, Kept(f, p))
        && (ParseScaling(scalingType).value != Sum ==> |Kept(f, p)| > 0)
        && r.value == Assemble(f, labelPosition, p, ParseScaling(scalingType).value)
  {
  }

  /** Every column whose name differs from the label column's is a context name. */
  lemma AssembleCoversColumns(f: Frame, labelPosition: int, p: nat, mode: ScalingType)
    requires WellFormed(f) && p < |f.columns|
    requires NumericOutside(f, Kept(f, p))
    requires mode != Sum ==> |Kept(f, p)| > 0
    ensures forall j :: 0 <= j < |f.columns| && f.columns[j] != f.columns[p] ==>
      f.columns[j] in Assemble(f, labelPosition, p, mode).kmerNames
  {
    var d, keep := Assemble(f, labelPosition, p, mode), Kept(f, p);
    AssembleContexts(f, labelPosition, p, mode);
    forall j | 0 <= j < |f.columns| && f.columns[j] != f.columns[p]
      ensures f.columns[j] in d.kmerNames
    {
      var i :| 0 <= i < |keep| && keep[i] == j;
      assert d.kmerNames[i] == f.columns[j];
    }
  }

  /** A constructed dataset: one label per row, from the label column; its
      context names are exactly the columns whose name differs from the label
      column's, in column order; its counts are those columns' numbers. */
  lemma BuildFields(f: Frame, labelPosition: int, scalingType: string)
    requires WellFormed(f)
    ensures var r := Build(f, labelPosition, scalingType);
      r.Success? ==>
        var p := ResolvePosition(|f.columns|, labelPosition).value;
        var keep := Kept(f, p);
        && Valid(r.value)
        && r.value.numSamples == |f.rows| && r.value.numMuts == |keep|
        && (forall s :: 0 <= s < |f.rows| ==> r.value.labels[s] == f.rows[s][p])
        && (forall m :: 0 <= m < |keep| ==> r.value.kmerNames[m] == f.columns[keep[m]] != f.columns[p])
        && (forall j :: 0 <= j < |f.columns| && f.columns[j] != f.columns[p] ==> f.columns[j] in r.value.kmerNames)
        && (forall s, m :: 0 <= s < |f.rows| && 0 <= m < |keep| ==> f.rows[s][keep[m]] == Num(r.value.mutMatrix[s][m]))
  {
    BuildIsAssemble(f, labelPosition, scalingType);
    if Build(f, labelPosition, scalingType).Success? {
      var p := ResolvePosition(|f.columns|, labelPosition).value;
      var mode := ParseScaling(scalingType).value;
      AssembleContexts(f, labelPosition, p, mode);
      AssembleCoversColumns(f, labelPosition, p, mode);
    }
  }

  /** The loop that appends one mutation label per context name, in order. */
  method CollectMutLabels(kmerNames: seq<string>) returns (mutLabels: seq<string>)
    ensures |mutLabels| == |kmerNames|
    ensures forall m :: 0 <= m < |kmerNames| ==> mutLabels[m] == MutLabel(kmerNames[m])
  {
    mutLabels := [];
    for m := 0 to |kmerNames|
      invariant |mutLabels| == m
      invariant forall i :: 0 <= i < m ==> mutLabels[i] == MutLabel(kmerNames[i])
    {
      mutLabels := mutLabels + [MutLabel(kmerNames[m])];
    }
  }

  /** `FlattenedDataset.__init__`: the fields are set one after the other and
      the mutation labels are appended name by name. */
  method Load(f: Frame, labelPosition: int, scalingType: string) returns (r: Result<Dataset, LoadError>)
    requires WellFormed(f)
    ensures r == Build(f, labelPosition, scalingType)
  {
    var pos := ResolvePosition(|f.columns|, labelPosition);
    if pos.None? {
      return Failure(LabelPositionOutOfRange);
    }
    var p := pos.value;
    var labels := seq(|f.rows|, s requires 0 <= s < |f.rows| => f.rows[s][p]);
    var keep := Kept(f, p);
    var kmerNames := Project(f.columns, keep);

    var mutLabels := CollectMutLabels(kmerNames);

    if !NumericOutside(f, keep) {
      return Failure(NonNumericCell);
    }
    var mutMatrix := Counts(f, keep);
    var numSamples, numMuts := |mutMatrix|, |keep|;

    var mode := ParseScaling(scalingType);
    if mode.None? {
      return Failure(InvalidScalingType);
    }
    if mode.value != Sum && numMuts == 0 {
      return Failure(EmptyReduction);
    }
    var libValues := seq(numSamples, s requires 0 <= s < numSamples => LibValue(mutMatrix[s], mode.value));
    var flattenedIndices := FlattenedIndices(numSamples, numMuts);
    var kmerOnehots := KmerOnehots(kmerNames);
    r := Success(Dataset(mode.value, labelPosition, labels, kmerNames, mutLabels, mutMatrix,
                         numSamples, numMuts, libValues, flattenedIndices, kmerOnehots));
    assert r.value == Assemble(f, labelPosition, p, mode.value) by {
      assert mutLabels == Assemble(f, labelPosition, p, mode.value).mutLabels;
    }
  }

  /** `__len__`: the number of (sample, context) pairs. */
  function Len(d: Dataset): (n: nat)
    requires Valid(d)
    ensures n == d.numSamples * d.numMuts
  {
    |d.flattenedIndices|
  }

  /** One element of the dataset: the count, the sample's scaling value,
      the two indices and the flattened one-hot of the context name. */
  datatype Item = Item(value: real, lib: real, sampleIdx: nat, mutIdx: nat, onehot: seq<real>)

  /** `__getitem__(idx)`: list indexing of the flattened index (negative
      positions count from the end; `None` is the IndexError). */
  function GetItem(d: Dataset, idx: int): (r: Option<Item>)
    requires Valid(d)
    ensures r.Some? <==> -(Len(d) as int) <= idx < Len(d)
    ensures r.Some? ==>
      var k := if idx < 0 then idx + Len(d) else idx;
      var it := r.value;
      && it.sampleIdx < d.numSamples && it.mutIdx < d.numMuts
      && PairIndex(it.sampleIdx, it.mutIdx, d.numMuts) == k
      && it.value == d.mutMatrix[it.sampleIdx][it.mutIdx]
      && it.lib == d.libValues[it.sampleIdx]
      && |it.onehot| == 4 * |Nucleotides(Upper(d.kmerNames[it.mutIdx]))|
      && forall j :: 0 <= j < |it.onehot| ==>
           j / 4 < |Nucleotides(Upper(d.kmerNames[it.mutIdx]))| &&
           it.onehot[j] == if j % 4 == NucIndex(Nucleotides(Upper(d.kmerNames[it.mutIdx]))[j / 4]) then 1.0 else 0.0
  {
    var n := Len(d);
    if idx < -(n as int) || n <= idx then None
    else
      var k := if idx < 0 then idx + n else idx;
      FlattenedIndexRoundTrip(d.numSamples, d.numMuts);
      var (s, m) := d.flattenedIndices[k];
      FlattenedIndexBounds(d.numSamples, d.numMuts);
      var kmer := d.kmerNames[m];
      assert kmer in d.kmerOnehots.Keys;
      OneHotFlatAt(kmer);
      Some(Item(d.mutMatrix[s][m], d.libValues[s], s, m, Flatten(d.kmerOnehots[kmer])))
  }
  /** The 3 x 2 example: the index has six entries, position 0 is
      (sample 0, context 0) and position 5 is (sample 2, context 1). */
  lemma IndexExample()
    ensures |FlattenedIndices(3, 2)| == 6
    ensures FlattenedIndices(3, 2)[0] == (0, 0) && FlattenedIndices(3, 2)[5] == (2, 1)
  {
    FlattenedIndicesAt(3, 2, 0);
    FlattenedIndicesAt(3, 2, 5);
  }

  /** Mean scaling of the rows [1, 2], [3, 4], [5, 6] gives 1.5, 3.5, 5.5. */
  lemma MeanExample()
    ensures LibValue([1.0, 2.0], Mean) == 1.5
    ensures LibValue([3.0, 4.0], Mean) == 3.5
    ensures LibValue([5.0, 6.0], Mean) == 5.5
  {
    assert [1.0, 2.0][1..][1..] == [] && [3.0, 4.0][1..][1..] == [] && [5.0, 6.0][1..][1..] == [];
  }

  /** A three-sample frame with two context columns and a trailing label
      column. */
  function ExampleFrame(): (f: Frame)
    ensures WellFormed(f)
  {
    Frame(["A[C>T]G", "T[C>A]A", "type"],
          [[Num(1.0), Num(2.0), Text("x")],
           [Num(3.0), Num(4.0), Text("y")],
           [Num(5.0), Num(6.0), Text("z")]])
  }

  /** Dropping the label column of the example keeps the first two columns. */
  lemma ExampleKept()
    ensures Kept(ExampleFrame(), 2) == [0, 1]
  {
    var cols := ExampleFrame().columns;
    assert cols[..2][..1][..0] == [];
    assert cols[..2][..1] == cols[..1] && cols[..2] == cols[..|cols| - 1];
    assert KeptPositions(cols[..2][..1], "type") == [0];
  }

  /** The counts of the example are the numbers in its first two columns. */
  lemma ExampleCounts()
    ensures NumericOutside(ExampleFrame(), [0, 1])
    ensures Counts(ExampleFrame(), [0, 1]) == [[1.0, 2.0], [3.0, 4.0], [5.0, 6.0]]
  {
    var f := ExampleFrame();
    var m := Counts(f, [0, 1]);
    assert m[0] == [1.0, 2.0];
    assert m[1] == [3.0, 4.0];
    assert m[2] == [5.0, 6.0];
  }

  /** `FlattenedDataset(frame, -1, "mean")` on the example frame: six flat
      items, and each sample's library value is the mean of its two counts. */
  lemma BuildExample()
    ensures Build(ExampleFrame(), -1, "mean").Success?
    ensures Len(Build(ExampleFrame(), -1, "mean").value) == 6
    ensures Build(ExampleFrame(), -1, "mean").value.libValues == [1.5, 3.5, 5.5]
  {
    ExampleKept();
    ExampleCounts();
    assert Build(ExampleFrame(), -1, "mean") == Success(Assemble(ExampleFrame(), -1, 2, Mean));
    ExampleAssemble();
  }

  /** The dataset assembled from the example, for label column 2 and mean
      scaling, has two contexts and the three row means as library values. */
  lemma ExampleAssemble()
    requires Kept(ExampleFrame(), 2) == [0, 1]
    requires NumericOutside(ExampleFrame(), [0, 1])
    requires Counts(ExampleFrame(), [0, 1]) == [[1.0, 2.0], [3.0, 4.0], [5.0, 6.0]]
    ensures Assemble(ExampleFrame(), -1, 2, Mean).numMuts == 2
    ensures Assemble(ExampleFrame(), -1, 2, Mean).libValues == [1.5, 3.5, 5.5]
  {
    ExampleLibValues();
  }

  /** Mean scaling of the example's counts. */
  lemma ExampleLibValues()
    ensures LibValues([[1.0, 2.0], [3.0, 4.0], [5.0, 6.0]], 2, Mean) == [1.5, 3.5, 5.5]
  {
    var libs := LibValues([[1.0, 2.0], [3.0, 4.0], [5.0, 6.0]], 2, Mean);
    MeanExample();
    assert libs[0] == 1.5 && libs[1] == 3.5 && libs[2] == 5.5;
  }

  /** A lower-case token is found after upper-casing; a name without a
      bracketed token gets the `[UNK]` label. */
  lemma MutLabelExample()
    ensures MutLabel("a[c>g]t") == "[C>G]"
    ensures MutLabel("ACGT") == "[UNK]"
  {
    assert Upper("a[c>g]t") == "A[C>G]T";
    assert TokenAt("A[C>G]T", 1) && !TokenAt("A[C>G]T", 0);
    assert Upper("ACGT") == "ACGT";
  }
}
