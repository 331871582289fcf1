/** Serving the two ensemble members: batched row scoring and windowed reconstruction, aligned back to the rows. */
module EnsembleServing {
  import opened Wrappers
  import opened Sorting

  type Id = nat
  type Row = seq<real>

  /** A feature row; the numeric vector is already assembled in the model's rule order. */
  datatype Feature = Feature(circuit: Id, ts: int, row: Row, lowQuality: bool)

  /** Both models with the scaler that travels with them; scoring is row by row. */
  datatype Forest = Forest(scale: Row -> Row, decide: Row -> real)
  datatype Autoencoder = Autoencoder(scale: Row -> Row, reconstruct: Row -> real, threshold: real)

  datatype ForestScore = ForestScore(score: real, anomalous: bool)
  datatype WindowScore = WindowScore(windowStart: int, windowEnd: int, error: real, anomalous: bool)

  datatype Record = Record(
    circuit: Id,
    ts: int,
    forestScore: Option<real>,
    forestAnomalous: bool,
    windowError: Option<real>,
    windowAnomalous: bool,
    ensembleAnomalous: bool,
    lowQuality: bool)

  predicate NoLater(a: Feature, b: Feature) { a.ts <= b.ts }

  // ---------------------------------------------------------------- usable rows

  /** The positions of the rows that are not low quality, ascending. */
  function Usable(features: seq<Feature>): (idx: seq<nat>)
    ensures forall j | 0 <= j < |idx| :: idx[j] < |features| && !features[idx[j]].lowQuality
    ensures forall j, k | 0 <= j < k < |idx| :: idx[j] < idx[k]
  {
    if features == [] then []
    else
      var n := |features| - 1;
      Usable(features[..n]) + (if features[n].lowQuality then [] else [n])
  }

  /** How many usable rows precede position i. */
  function Predecessors(features: seq<Feature>, i: nat): nat
    requires i <= |features|
  {
    |Usable(features[..i])|
  }

  lemma {:induction false} UsablePrefix(features: seq<Feature>, i: nat)
    requires i <= |features|
    ensures Usable(features[..i]) <= Usable(features)
    decreases |features|
  {
    if i < |features| {
      var n := |features| - 1;
      UsablePrefix(features[..n], i);
      assert features[..n][..i] == features[..i];
    } else {
      assert features[..i] == features;
    }
  }

  /** A usable row sits in the index list behind exactly its usable predecessors. */
  lemma PlaceOfUsable(features: seq<Feature>, i: nat)
    requires i < |features| && !features[i].lowQuality
    ensures Predecessors(features, i) < |Usable(features)|
    ensures Usable(features)[Predecessors(features, i)] == i
  {
    UsablePrefix(features, i + 1);
    assert features[..i + 1][..i] == features[..i];
  }

  lemma PlaceIsUnique(features: seq<Feature>, p: nat)
    requires p < |Usable(features)|
    ensures Predecessors(features, Usable(features)[p]) == p
  {
    var idx := Usable(features);
    PlaceOfUsable(features, idx[p]);
  }

  // ---------------------------------------------------------------- Isolation Forest

  function ForestScoreOf(f: Feature, forest: Forest): ForestScore {
    var s := forest.decide(forest.scale(f.row));
    ForestScore(s, s < 0.0)
  }

  /** The decision function applied to each row of a batch. */
  function DecideAll(features: seq<Feature>, batch: seq<nat>, forest: Forest): (scores: seq<real>)
    requires forall j | 0 <= j < |batch| :: batch[j] < |features|
    ensures |scores| == |batch|
    ensures forall j | 0 <= j < |batch| :: scores[j] == forest.decide(forest.scale(features[batch[j]].row))
  {
    seq(|batch|, j requires 0 <= j < |batch| => forest.decide(forest.scale(features[batch[j]].row)))
  }

  function ForestScoreAt(features: seq<Feature>, i: nat, forest: Option<Forest>): Option<ForestScore>
    requires i < |features|
  {
    if forest.Some? && !features[i].lowQuality then Some(ForestScoreOf(features[i], forest.value)) else None
  }

  /** The scores of all usable rows, each computed from its own row alone. */
  function ForestScores(features: seq<Feature>, forest: Forest): (scores: seq<ForestScore>)
    ensures |scores| == |Usable(features)|
    ensures forall k | 0 <= k < |scores| :: scores[k] == ForestScoreOf(features[Usable(features)[k]], forest)
  {
    var idx := Usable(features);
    seq(|idx|, k requires 0 <= k < |idx| => ForestScoreOf(features[idx[k]], forest))
  }

  /**
   * The first n expected scores hang on usable rows, and nothing else is scored: score k stands at the row of
   * place k + w - 1 (the window ending there; a forest score is the case w = 1).
   */
  ghost predicate Attached<T(!new)>(usable: seq<nat>, w: nat, n: nat, expected: seq<T>, result: map<nat, T>)
    requires w >= 1 && n + w - 1 <= |usable| && n <= |expected|
  {
    && (forall i :: i in result <==> i in usable[w - 1..n + w - 1])
    && (forall k | 0 <= k < n :: usable[k + w - 1] in result && result[usable[k + w - 1]] == expected[k])
  }

  lemma AttachOne<T(!new)>(usable: seq<nat>, w: nat, n: nat, expected: seq<T>, result: map<nat, T>)
    requires w >= 1 && n + w <= |usable| && n < |expected|
    requires forall j, k | 0 <= j < k < |usable| :: usable[j] < usable[k]
    requires Attached(usable, w, n, expected, result)
    ensures Attached(usable, w, n + 1, expected, result[usable[n + w - 1] := expected[n]])
  {
    assert usable[w - 1..n + 1 + w - 1] == usable[w - 1..n + w - 1] + [usable[n + w - 1]];
  }

  /** Whatever the batch size, every usable row gets its own row's score and no other row gets one. */
  method RunIsolationForest(features: seq<Feature>, forest: Option<Forest>, maxBatchSize: nat)
    returns (result: map<nat, ForestScore>)
    requires maxBatchSize >= 1
    ensures forall i: nat | i < |features| :: Lookup(result, i) == ForestScoreAt(features, i, forest)
    ensures forall i | i in result :: i < |features|
  {
    result := map[];
    if forest.None? {
      return;
    }
    ghost var expected := ForestScores(features, forest.value);
    result := ScoreInBatches(features, Usable(features), forest.value, maxBatchSize, expected);
    forall i: nat | i < |features| ensures Lookup(result, i) == ForestScoreAt(features, i, forest) {
      ScoreOfRow(features, i, forest.value, expected, result);
    }
  }

  /** The loop over batches of at most maxBatchSize usable rows. */
  method ScoreInBatches(features: seq<Feature>, usable: seq<nat>, forest: Forest, maxBatchSize: nat,
                        ghost expected: seq<ForestScore>)
    returns (result: map<nat, ForestScore>)
    requires maxBatchSize >= 1 && |expected| == |usable|
    requires forall j | 0 <= j < |usable| :: usable[j] < |features|
    requires forall j, k | 0 <= j < k < |usable| :: usable[j] < usable[k]
    requires forall j | 0 <= j < |usable| :: expected[j] == ForestScoreOf(features[usable[j]], forest)
    ensures Attached(usable, 1, |usable|, expected, result)
    ensures forall i | i in result :: i < |features|
  {
    result := map[];
    var start := 0;
    while start < |usable|
      invariant 0 <= start <= |usable|
      invariant Attached(usable, 1, start, expected, result)
    {
      var end := if start + maxBatchSize <= |usable| then start + maxBatchSize else |usable|;
      var batch := usable[start..end];
      assert forall j | 0 <= j < |batch| :: batch[j] == usable[start + j];
      var scores := DecideAll(features, batch, forest);
      result := ScoreBatch(usable, start, batch, scores, expected, result);
      start := end;
    }
  }

  /** One batch, already scored together: each score goes back under its row's global position. */
  method ScoreBatch(usable: seq<nat>, start: nat, batch: seq<nat>, scores: seq<real>,
                    ghost expected: seq<ForestScore>, before: map<nat, ForestScore>)
    returns (result: map<nat, ForestScore>)
    requires forall j, k | 0 <= j < k < |usable| :: usable[j] < usable[k]
    requires start + |batch| <= |usable| == |expected| && |scores| == |batch|
    requires forall j | 0 <= j < |batch| :: batch[j] == usable[start + j]
    requires forall j | 0 <= j < |batch| :: expected[start + j] == ForestScore(scores[j], scores[j] < 0.0)
    requires Attached(usable, 1, start, expected, before)
    ensures Attached(usable, 1, start + |batch|, expected, result)
  {
    result := before;
    for localI := 0 to |batch|
      invariant Attached(usable, 1, start + localI, expected, result)
    {
      AttachOne(usable, 1, start + localI, expected, result);
      var globalI := batch[localI];
      var score := ForestScore(scores[localI], scores[localI] < 0.0);
      assert expected[start + localI] == score;
      result := result[globalI := score];
    }
  }

  lemma ScoreOfRow(features: seq<Feature>, i: nat, forest: Forest, expected: seq<ForestScore>,
                   result: map<nat, ForestScore>)
    requires i < |features| && expected == ForestScores(features, forest)
    requires Attached(Usable(features), 1, |expected|, expected, result)
    ensures Lookup(result, i) == ForestScoreAt(features, i, Some(forest))
  {
    var usable := Usable(features);
    assert usable[0..|usable|] == usable;
    if !features[i].lowQuality {
      PlaceOfUsable(features, i);
      var p := Predecessors(features, i);
      assert usable[p + 1 - 1] == i && result[i] == expected[p];
    }
  }

  // ---------------------------------------------------------------- windows

  function Flatten(rows: seq<Row>): Row {
    if rows == [] then [] else rows[0] + Flatten(rows[1..])
  }

  ghost predicate Rectangular(rows: seq<Row>, f: nat) {
    forall i | 0 <= i < |rows| :: |rows[i]| == f
  }

  /** Element k of row j stands at position j * f + k of the flattened window. */
  lemma {:induction false} FlattenAt(rows: seq<Row>, f: nat, j: nat, k: nat)
    requires Rectangular(rows, f) && j < |rows| && k < f
    ensures |Flatten(rows)| == |rows| * f
    ensures 0 <= j * f + k < |Flatten(rows)| && Flatten(rows)[j * f + k] == rows[j][k]
    decreases |rows|
  {
    if j == 0 {
      FlattenLength(rows, f);
      assert |rows| * f == f + (|rows| - 1) * f;
    } else {
      FlattenAt(rows[1..], f, j - 1, k);
      assert j * f + k == f + ((j - 1) * f + k);
      assert |rows| * f == f + (|rows| - 1) * f;
    }
  }

  lemma {:induction false} FlattenLength(rows: seq<Row>, f: nat)
    requires Rectangular(rows, f)
    ensures |Flatten(rows)| == |rows| * f
  {
    if rows != [] {
      FlattenLength(rows[1..], f);
      assert |rows| * f == f + (|rows| - 1) * f;
    }
  }

  /** _build_windows: one flattened slice per start position. */
  method BuildWindows(matrix: seq<Row>, w: nat) returns (windows: seq<Row>)
    ensures |windows| == if |matrix| < w then 0 else |matrix| - w + 1
    ensures forall i | 0 <= i < |windows| :: i + w <= |matrix| && windows[i] == Flatten(matrix[i..i + w])
  {
    windows := [];
    if |matrix| < w {
      return;
    }
    for i := 0 to |matrix| - w + 1
      invariant |windows| == i
      invariant forall j | 0 <= j < i :: windows[j] == Flatten(matrix[j..j + w])
    {
      windows := windows + [Flatten(matrix[i..i + w])];
    }
  }

  /** Windows hold exactly the source rows: position j * f + k of window i is entry k of row i + j. */
  lemma WindowContents(matrix: seq<Row>, f: nat, w: nat, i: nat, j: nat, k: nat)
    requires Rectangular(matrix, f) && i + w <= |matrix| && j < w && k < f
    ensures var window := Flatten(matrix[i..i + w]);
            |window| == w * f && 0 <= j * f + k < |window| && window[j * f + k] == matrix[i + j][k]
  {
    FlattenAt(matrix[i..i + w], f, j, k);
  }

  // ---------------------------------------------------------------- autoencoder

  function ScaledRows(features: seq<Feature>, idx: seq<nat>, ae: Autoencoder): (m: seq<Row>)
    requires forall j | 0 <= j < |idx| :: idx[j] < |features|
    ensures |m| == |idx| && forall j | 0 <= j < |idx| :: m[j] == ae.scale(features[idx[j]].row)
  {
    seq(|idx|, j requires 0 <= j < |idx| => ae.scale(features[idx[j]].row))
  }

  /** The score of the window that ends at the usable row of place p. */
  function WindowScoreAt(features: seq<Feature>, ae: Autoencoder, w: nat, p: nat): WindowScore
    requires 1 <= w <= p + 1 && p < |Usable(features)|
  {
    var idx := Usable(features);
    var error := ae.reconstruct(Flatten(ScaledRows(features, idx, ae)[p + 1 - w..p + 1]));
    WindowScore(features[idx[p + 1 - w]].ts, features[idx[p]].ts, error, error > ae.threshold)
  }

  predicate HasWindow(features: seq<Feature>, i: nat, w: nat)
    requires i < |features|
  {
    !features[i].lowQuality && Predecessors(features, i) >= w - 1
  }

  function WindowScoreOf(features: seq<Feature>, i: nat, model: Option<Autoencoder>, w: nat): Option<WindowScore>
    requires i < |features| && w >= 1
  {
    if model.Some? && HasWindow(features, i, w) then
      PlaceOfUsable(features, i);
      Some(WindowScoreAt(features, model.value, w, Predecessors(features, i)))
    else None
  }

  /** A usable row with at least w - 1 usable predecessors carries the score of the window ending at it. */
  method RunAutoencoder(features: seq<Feature>, model: Option<Autoencoder>, w: nat)
    returns (result: map<nat, WindowScore>)
    requires w >= 1
    ensures forall i: nat | i < |features| :: Lookup(result, i) == WindowScoreOf(features, i, model, w)
    ensures forall i | i in result :: i < |features|
  {
    result := map[];
    if model.None? {
      return;
    }
    var ae := model.value;
    var usable := Usable(features);
    if |usable| < w {
      forall i: nat | i < |features| ensures !HasWindow(features, i, w) {
        if !features[i].lowQuality {
          PlaceOfUsable(features, i);
        }
      }
      return;
    }
    var windows := BuildWindows(ScaledRows(features, usable, ae), w);
    var errors := seq(|windows|, k requires 0 <= k < |windows| => ae.reconstruct(windows[k]));
    ghost var expected := WindowScores(features, ae, w);
    result := AttachWindows(features, usable, errors, ae.threshold, w, expected);
    forall i: nat | i < |features| ensures Lookup(result, i) == WindowScoreOf(features, i, model, w) {
      WindowOfRow(features, i, ae, w, expected, result);
    }
  }

  /** All window scores, in order of the row they end at. */
  function WindowScores(features: seq<Feature>, ae: Autoencoder, w: nat): (scores: seq<WindowScore>)
    requires 1 <= w <= |Usable(features)|
    ensures |scores| == |Usable(features)| - w + 1
    ensures forall k | 0 <= k < |scores| :: scores[k] == WindowScoreAt(features, ae, w, k + w - 1)
  {
    seq(|Usable(features)| - w + 1, k requires 0 <= k < |Usable(features)| - w + 1 =>
          WindowScoreAt(features, ae, w, k + w - 1))
  }

  method AttachWindows(features: seq<Feature>, usable: seq<nat>, errors: seq<real>, threshold: real, w: nat,
                       ghost expected: seq<WindowScore>)
    returns (result: map<nat, WindowScore>)
    requires forall j | 0 <= j < |usable| :: usable[j] < |features|
    requires forall j, k | 0 <= j < k < |usable| :: usable[j] < usable[k]
    requires 1 <= w <= |usable| && |errors| == |usable| - w + 1 == |expected|
    requires forall k | 0 <= k < |errors| ::
               expected[k] ==
                 WindowScore(features[usable[k]].ts, features[usable[k + w - 1]].ts, errors[k], errors[k] > threshold)
    ensures Attached(usable, w, |expected|, expected, result)
  {
    result := map[];
    for winI := 0 to |errors|
      invariant Attached(usable, w, winI, expected, result)
    {
      var globalI := usable[winI + w - 1];
      var windowStart := usable[winI];
      var score := WindowScore(features[windowStart].ts, features[globalI].ts, errors[winI], errors[winI] > threshold);
      assert score == expected[winI];
      AttachOne(usable, w, winI, expected, result);
      result := result[globalI := score];
    }
  }

  lemma WindowOfRow(features: seq<Feature>, i: nat, ae: Autoencoder, w: nat,
                    expected: seq<WindowScore>, result: map<nat, WindowScore>)
    requires i < |features| && 1 <= w <= |Usable(features)| && expected == WindowScores(features, ae, w)
    requires Attached(Usable(features), w, |expected|, expected, result)
    ensures Lookup(result, i) == WindowScoreOf(features, i, Some(ae), w)
  {
    if HasWindow(features, i, w) {
      RowWithWindow(features, i, ae, w, expected, result);
    } else {
      RowWithoutWindow(features, i, w, expected, result);
    }
  }

  lemma RowWithWindow(features: seq<Feature>, i: nat, ae: Autoencoder, w: nat,
                      expected: seq<WindowScore>, result: map<nat, WindowScore>)
    requires i < |features| && 1 <= w <= |Usable(features)| && expected == WindowScores(features, ae, w)
    requires Attached(Usable(features), w, |expected|, expected, result)
    requires HasWindow(features, i, w)
    ensures i in result && WindowScoreOf(features, i, Some(ae), w) == Some(result[i])
  {
    PlaceOfUsable(features, i);
    var k := Predecessors(features, i) - (w - 1);
    assert Usable(features)[k + w - 1] == i && result[i] == expected[k];
  }

  lemma RowWithoutWindow(features: seq<Feature>, i: nat, w: nat, expected: seq<WindowScore>,
                         result: map<nat, WindowScore>)
    requires i < |features| && 1 <= w <= |Usable(features)| && |expected| == |Usable(features)| - w + 1
    requires Attached(Usable(features), w, |expected|, expected, result)
    requires !HasWindow(features, i, w)
    ensures i !in result
  {
    var tail := Usable(features)[w - 1..];
    forall k | 0 <= k < |tail| ensures tail[k] != i {
      PlaceIsUnique(features, k + w - 1);
    }
  }

  // ---------------------------------------------------------------- the service

  /** One record from the row and whatever scores it has. */
  function MakeRecord(f: Feature, fs: Option<ForestScore>, ws: Option<WindowScore>): Record {
    var forestFlag := fs.Some? && fs.value.anomalous;
    var windowFlag := ws.Some? && ws.value.anomalous;
    Record(f.circuit, f.ts,
           if fs.Some? then Some(fs.value.score) else None, forestFlag,
           if ws.Some? then Some(ws.value.error) else None, windowFlag,
           forestFlag || windowFlag, f.lowQuality)
  }

  /** What each row's record must say, independent of batching. */
  function RecordOf(features: seq<Feature>, i: nat, forest: Option<Forest>, ae: Option<Autoencoder>, w: nat): Record
    requires i < |features| && w >= 1
  {
    MakeRecord(features[i], ForestScoreAt(features, i, forest), WindowScoreOf(features, i, ae, w))
  }

  /** The flags of a record follow from the scores beside them: a negative decision, an error above the threshold. */
  predicate FlagsFollow(r: Record, ae: Option<Autoencoder>) {
    && (r.forestAnomalous <==> r.forestScore.Some? && r.forestScore.value < 0.0)
    && (r.windowError.Some? ==> ae.Some?)
    && (r.windowAnomalous <==> r.windowError.Some? && r.windowError.value > ae.value.threshold)
    && (r.ensembleAnomalous <==> !(!r.forestAnomalous && !r.windowAnomalous))
  }

  lemma RecordFlags(features: seq<Feature>, i: nat, forest: Option<Forest>, ae: Option<Autoencoder>, w: nat)
    requires i < |features| && w >= 1
    ensures FlagsFollow(RecordOf(features, i, forest, ae, w), ae)
  {
  }

  /**
   The window behind a score ends at its row and starts at the usable row with w - 1 usable rows from it up to there.
   */
  lemma WindowSpans(features: seq<Feature>, i: nat, ae: Autoencoder, w: nat) returns (first: nat)
    requires i < |features| && w >= 1 && HasWindow(features, i, w)
    ensures var score := WindowScoreOf(features, i, Some(ae), w);
            && score.Some? && score.value.windowEnd == features[i].ts
            && first <= i && !features[first].lowQuality && score.value.windowStart == features[first].ts
            && Predecessors(features, i) - Predecessors(features, first) == w - 1
  {
    PlaceOfUsable(features, i);
    var p := Predecessors(features, i);
    first := Usable(features)[p + 1 - w];
    PlaceIsUnique(features, p + 1 - w);
    if w > 1 {
      assert Usable(features)[p + 1 - w] < Usable(features)[p];
    }
  }

  method Score(features: seq<Feature>, forest: Option<Forest>, ae: Option<Autoencoder>, w: nat, maxBatchSize: nat)
    returns (records: seq<Record>)
    requires w >= 1 && maxBatchSize >= 1
    ensures var sorted := Sort(features, NoLater);
            |records| == |sorted| == |features| &&
            forall i | 0 <= i < |sorted| :: records[i] == RecordOf(sorted, i, forest, ae, w)
    ensures forall i, j | 0 <= i < j < |records| :: records[i].ts <= records[j].ts
    ensures forall r | r in records :: FlagsFollow(r, ae)
    ensures forest.Some? ==> forall r | r in records :: r.forestScore.Some? <==> !r.lowQuality
    ensures forall i: nat | i < |records| ::
              var f := Sort(features, NoLater)[i];
              records[i].circuit == f.circuit && records[i].ts == f.ts && records[i].lowQuality == f.lowQuality
  {
    SortProperties(features, NoLater);
    records := [];
    var sorted := Sort(features, NoLater);
    if features == [] {
      return;
    }
    var forestScores := RunIsolationForest(sorted, forest, maxBatchSize);
    var windowScores := RunAutoencoder(sorted, ae, w);
    records := MergeScores(sorted, forestScores, windowScores);
    forall i, j | 0 <= i < j < |records| ensures records[i].ts <= records[j].ts {
      assert NoLater(sorted[i], sorted[j]);
    }
    forall i: nat | i < |records| ensures FlagsFollow(records[i], ae) {
      RecordFlags(sorted, i, forest, ae, w);
    }
  }

  /** The loop that lines both score tables up with the rows. */
  method MergeScores(sorted: seq<Feature>, forestScores: map<nat, ForestScore>, windowScores: map<nat, WindowScore>)
    returns (records: seq<Record>)
    ensures |records| == |sorted|
    ensures forall i: nat | i < |sorted| ::
              records[i] == MakeRecord(sorted[i], Lookup(forestScores, i), Lookup(windowScores, i))
  {
    records := [];
    for i := 0 to |sorted|
      invariant |records| == i
      invariant forall j: nat | j < i ::
                  records[j] == MakeRecord(sorted[j], Lookup(forestScores, j), Lookup(windowScores, j))
    {
      records := records + [MakeRecord(sorted[i], Lookup(forestScores, i), Lookup(windowScores, i))];
    }
  }

  /** A low-quality row is never flagged and never scored. */
  lemma LowQualityNeverFlagged(features: seq<Feature>, i: nat, forest: Option<Forest>, ae: Option<Autoencoder>, w: nat)
    requires i < |features| && w >= 1 && features[i].lowQuality
    ensures var r := RecordOf(features, i, forest, ae, w);
            !r.ensembleAnomalous && !r.forestAnomalous && !r.windowAnomalous
            && r.forestScore.None? && r.windowError.None? && r.lowQuality
  {
  }

  /** The w usable rows of the window that ends at place p. */
  function WindowRows(features: seq<Feature>, w: nat, p: nat): (rows: seq<Feature>)
    requires 1 <= w <= p + 1 && p < |Usable(features)|
    ensures |rows| == w && forall j | 0 <= j < w :: rows[j] == features[Usable(features)[p + 1 - w + j]]
  {
    seq(w, j requires 0 <= j < w => features[Usable(features)[p + 1 - w + j]])
  }

  function ScaleAll(rows: seq<Feature>, ae: Autoencoder): (m: seq<Row>)
    ensures |m| == |rows| && forall j | 0 <= j < |rows| :: m[j] == ae.scale(rows[j].row)
  {
    seq(|rows|, j requires 0 <= j < |rows| => ae.scale(rows[j].row))
  }

  lemma SliceIsWindow(features: seq<Feature>, ae: Autoencoder, w: nat, p: nat)
    requires 1 <= w <= p + 1 && p < |Usable(features)|
    ensures ScaledRows(features, Usable(features), ae)[p + 1 - w..p + 1] == ScaleAll(WindowRows(features, w, p), ae)
  {
  }

  /** Nothing but the w usable rows of its window influences a row's reconstruction error. */
  lemma WindowScoreIsLocal(a: seq<Feature>, b: seq<Feature>, ae: Autoencoder, w: nat, p: nat, q: nat)
    requires 1 <= w <= p + 1 && p < |Usable(a)| && w <= q + 1 && q < |Usable(b)|
    requires WindowRows(a, w, p) == WindowRows(b, w, q)
    ensures WindowScoreAt(a, ae, w, p) == WindowScoreAt(b, ae, w, q)
  {
    var ra, rb := WindowRows(a, w, p), WindowRows(b, w, q);
    SliceIsWindow(a, ae, w, p);
    SliceIsWindow(b, ae, w, q);
    assert a[Usable(a)[p + 1 - w]] == ra[0] && a[Usable(a)[p]] == ra[w - 1];
    assert b[Usable(b)[q + 1 - w]] == rb[0] && b[Usable(b)[q]] == rb[w - 1];
  }
}
