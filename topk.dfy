// Top-K mapping of classifier output to labelled predictions
// (backend/app.py, _predict_topk).
//
// The network itself (face cropping, the transform, the forward pass, the
// softmax and torch.topk) is not modelled: its outcome is the `Inference`
// value handed in, either a failure (no model loaded, or any exception on
// the way) or the classes paired with their probabilities in the order
// torch.topk returns them.

module TopK {
  import opened Strings
  import opened PyJson
  import opened Labels

  datatype Inference = Failed | Ranked(pairs: seq<(int, real)>)

  datatype Prediction = Prediction(id: int, name: string, score: real)

  /** The label of a class index, or the placeholder entry for an index
      the label table does not know. */
  function LabelFor(labels: map<int, LabelEntry>, idx: int): (e: LabelEntry)
    ensures idx in labels ==> e == labels[idx]
    ensures idx !in labels ==> e.id == idx && e.name == "Unknown_" + IntToString(idx)
  {
    if idx in labels then labels[idx] else LabelEntry(idx, "Unknown_" + IntToString(idx))
  }

  function PredictionOf(labels: map<int, LabelEntry>, pair: (int, real)): Prediction
  {
    var e := LabelFor(labels, pair.0);
    Prediction(e.id, e.name, pair.1)
  }

  /** The number of predictions: min(topK, classes); torch.topk refuses a
      negative k, which the handler turns into an empty answer. */
  function Count(topK: int, classes: nat): int
  {
    if topK < classes then topK else classes
  }

  function TopKOf(inference: Inference, labels: map<int, LabelEntry>, topK: int): (r: seq<Prediction>)
    ensures inference.Failed? ==> r == []
    ensures inference.Ranked? && topK >= 0 ==> |r| == Count(topK, |inference.pairs|)
    ensures inference.Ranked? && topK < 0 ==> r == []
  {
    if inference.Failed? then []
    else
      var k := Count(topK, |inference.pairs|);
      if k < 0 then []
      else seq(k, i requires 0 <= i < k => PredictionOf(labels, inference.pairs[i]))
  }

  /** The handler's loop over the (score, index) pairs. */
  method PredictTopK(inference: Inference, labels: map<int, LabelEntry>, topK: int)
    returns (preds: seq<Prediction>)
    ensures preds == TopKOf(inference, labels, topK)
  {
    if inference.Failed? {
      return [];
    }
    var k := Count(topK, |inference.pairs|);
    if k < 0 {
      return [];
    }
    preds := [];
    var rank := 0;
    while rank < k
      invariant 0 <= rank <= k
      invariant preds == TopKOf(inference, labels, topK)[..rank]
    {
      var pair := inference.pairs[rank];
      var meta := LabelFor(labels, pair.0);
      preds := preds + [Prediction(meta.id, meta.name, pair.1)];
      rank := rank + 1;
    }
  }

  /** Every prediction copies the score of the class at the same rank and
      carries that class's label. */
  lemma TopKAtRank(inference: Inference, labels: map<int, LabelEntry>, topK: int, i: int)
    requires 0 <= i < |TopKOf(inference, labels, topK)|
    ensures inference.Ranked? && i < |inference.pairs| && i < topK
    ensures var p := TopKOf(inference, labels, topK)[i];
            var idx := inference.pairs[i].0;
            p.score == inference.pairs[i].1
            && (idx in labels ==> p.id == labels[idx].id && p.name == labels[idx].name)
            && (idx !in labels ==> p.id == idx && p.name == "Unknown_" + IntToString(idx))
  {
  }

  predicate Descending(pairs: seq<(int, real)>)
  {
    forall i, j :: 0 <= i < j < |pairs| ==> pairs[i].1 >= pairs[j].1
  }

  /** Rank order is kept: when torch.topk hands the classes in descending
      probability, the predictions come out in descending score. */
  lemma TopKRankOrder(inference: Inference, labels: map<int, LabelEntry>, topK: int)
    requires inference.Ranked? && Descending(inference.pairs)
    ensures var r := TopKOf(inference, labels, topK);
            forall i, j :: 0 <= i < j < |r| ==> r[i].score >= r[j].score
  {
    var r := TopKOf(inference, labels, topK);
    forall i, j | 0 <= i < j < |r|
      ensures r[i].score >= r[j].score
    {
      TopKAtRank(inference, labels, topK, i);
      TopKAtRank(inference, labels, topK, j);
    }
  }

  /** With the label table built from a class-name list, a predicted name
      carries an underscore exactly when its class index has no label:
      real labels are normalised (underscores become spaces) while the
      placeholder is "Unknown_<index>". */
  lemma PlaceholderIffUnlabelled(names: seq<Json>, inference: Inference, topK: int, i: int)
    requires ClassTable(names).Some?
    requires 0 <= i < |TopKOf(inference, ClassTable(names).value, topK)|
    ensures inference.Ranked? && i < |inference.pairs|
    ensures var p := TopKOf(inference, ClassTable(names).value, topK)[i];
            var idx := inference.pairs[i].0;
            ('_' in p.name <==> !(0 <= idx < |names|))
            && (0 <= idx < |names| ==> p.id == idx)
  {
    var labels := ClassTable(names).value;
    TopKAtRank(inference, labels, topK, i);
    var idx := inference.pairs[i].0;
    var p := TopKOf(inference, labels, topK)[i];
    assert AllStrings(names);
    TableEntries(names, NormalizeAsWritten, idx);
    if 0 <= idx < |names| {
      AsWrittenNoUnderscore(names[idx].s);
    } else {
      assert p.name[7] == '_';
    }
  }
}
