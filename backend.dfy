/** The standalone classifier service (`backend/app.py`): the inverted label
    mapping, the two recommendation tables and the assembly of the `/predict`
    answer from the classifier's ranking. */
module Backend {
  import opened Wrappers

  // ----- id2label -----

  /** `{v: k for k, v in label_mapping.items()}`, with the mapping's items in
      insertion order: a later key with the same id overwrites an earlier one. */
  function Invert(items: seq<(string, int)>): (id2label: map<int, string>)
    ensures id2label.Keys == Ids(items)
  {
    if |items| == 0 then map[]
    else
      var last := items[|items| - 1];
      IdsOfSnoc(items[..|items| - 1], last);
      assert items == items[..|items| - 1] + [last];
      Invert(items[..|items| - 1])[last.1 := last.0]
  }

  /** The ids (values) of the mapping. */
  function Ids(items: seq<(string, int)>): set<int>
  {
    set i | 0 <= i < |items| :: items[i].1
  }

  lemma IdsOfSnoc(front: seq<(string, int)>, last: (string, int))
    ensures Ids(front + [last]) == Ids(front) + {last.1}
  {
    var items := front + [last];
    forall v | v in Ids(items) ensures v in Ids(front) + {last.1} {
      var i :| 0 <= i < |items| && items[i].1 == v;
      if i < |front| { assert front[i] == items[i]; }
    }
    forall v | v in Ids(front) ensures v in Ids(items) {
      var i :| 0 <= i < |front| && front[i].1 == v;
      assert items[i] == front[i];
    }
    assert last == items[|front|];
  }

  /** Every id maps to the key of the LAST item carrying that id. */
  lemma {:induction false} InvertLastWins(items: seq<(string, int)>, j: nat)
    requires j < |items|
    requires forall k :: j < k < |items| ==> items[k].1 != items[j].1
    ensures Invert(items)[items[j].1] == items[j].0
    decreases |items|
  {
    if j < |items| - 1 {
      var front := items[..|items| - 1];
      assert forall k :: j < k < |front| ==> front[k].1 != front[j].1 by {
        forall k | j < k < |front| ensures front[k].1 != front[j].1 {
          assert front[k] == items[k];
        }
      }
      InvertLastWins(front, j);
    }
  }

  /** Every entry of the inverse is an item of the mapping read backwards. */
  lemma {:induction false} InvertPairsAreItems(items: seq<(string, int)>, id: int)
    requires id in Invert(items)
    ensures exists i :: 0 <= i < |items| && items[i] == (Invert(items)[id], id)
    decreases |items|
  {
    var last := items[|items| - 1];
    if id == last.1 {
      assert items[|items| - 1] == (Invert(items)[id], id);
    } else {
      var front := items[..|items| - 1];
      assert id in Invert(front) && Invert(items)[id] == Invert(front)[id];
      InvertPairsAreItems(front, id);
      var i :| 0 <= i < |front| && front[i] == (Invert(front)[id], id);
      assert items[i] == front[i];
    }
  }

  /** When the ids are distinct the inversion is a true inverse:
      `id2label[label_mapping[k]] == k` for every key. */
  lemma InvertRoundTrip(items: seq<(string, int)>, i: nat)
    requires forall a, b :: 0 <= a < b < |items| ==> items[a].1 != items[b].1
    requires i < |items|
    ensures Invert(items)[items[i].1] == items[i].0
  {
    InvertLastWins(items, i);
  }

  // ----- recommendation tables -----

  const DefaultTests: seq<string> := ["Complete Blood Count", "General physical examination"]

  /** `get_recommended_tests`: three diseases have their own list of tests,
      every other disease gets the general one. */
  function RecommendedTests(disease: string): (tests: seq<string>)
    ensures disease == "Migraine" ==> tests == ["Neurological exam", "MRI Brain", "Blood tests"]
    ensures disease == "Arthritis" ==> tests == ["Joint X-ray", "RA factor test", "ESR test"]
    ensures disease == "Hypertension" ==> tests == ["Blood pressure monitoring", "ECG", "Renal function test"]
    ensures tests == DefaultTests <==> disease !in {"Migraine", "Arthritis", "Hypertension"}
    ensures 2 <= |tests| <= 3
  {
    var testMap := map[
      "Migraine" := ["Neurological exam", "MRI Brain", "Blood tests"],
      "Arthritis" := ["Joint X-ray", "RA factor test", "ESR test"],
      "Hypertension" := ["Blood pressure monitoring", "ECG", "Renal function test"]];
    if disease in testMap then testMap[disease] else DefaultTests
  }

  datatype Recommendations = Recommendations(urgent: string, selfCare: string, avoid: string)

  const UrgentDiseases: seq<string> := ["Hypertension", "Heart Disease"]

  /** `get_general_recommendations`: only the urgency depends on the disease. */
  function GeneralRecommendations(disease: string): (rec: Recommendations)
    ensures rec.urgent == "Consult specialist within 1 week" <==> disease == "Hypertension" || disease == "Heart Disease"
    ensures rec.urgent != "Consult specialist within 1 week" ==> rec.urgent == "Routine consultation"
    ensures rec.selfCare == "Monitor symptoms, maintain hydration"
    ensures rec.avoid == "Self-medication without doctor consultation"
  {
    Recommendations(
      if disease in UrgentDiseases then "Consult specialist within 1 week" else "Routine consultation",
      "Monitor symptoms, maintain hydration",
      "Self-medication without doctor consultation")
  }

  /** Two diseases on the same side of the urgency test get the same advice. */
  lemma RecommendationsDependOnlyOnUrgency(a: string, b: string)
    requires (a in UrgentDiseases) == (b in UrgentDiseases)
    ensures GeneralRecommendations(a) == GeneralRecommendations(b)
  {
  }

  // ----- POST /predict -----

  /** One class of the classifier's ranking, best first; the confidence is
      the softmax probability in hundredths of a percent. */
  datatype Ranked = Ranked(id: int, confidence: int)

  datatype Prediction = Prediction(disease: string, confidence: int, recommendedTests: seq<string>)

  datatype PredictReply = PredictReply(symptoms: string, predictions: seq<Prediction>,
                                       recommendations: Recommendations)

  /** What makes `/predict` answer 500 `{'error': str(e)}`. */
  datatype PredictError =
    | NoJsonBody             // `request.json` is None: `.get` raises
    | FewerThanThreeClasses  // `torch.topk(predictions, 3)` raises
    | UnknownLabelId(id: int) // `id2label[...]` raises KeyError

  /** The record built for one ranked class whose id is known: its label,
      its confidence and the tests recommended for that label. */
  function PredictionFor(c: Ranked, id2label: map<int, string>): (p: Prediction)
    requires c.id in id2label
    ensures p.disease == id2label[c.id] && p.confidence == c.confidence
    ensures p.recommendedTests == DefaultTests <==> id2label[c.id] !in {"Migraine", "Arthritis", "Hypertension"}
  {
    Prediction(id2label[c.id], c.confidence, RecommendedTests(id2label[c.id]))
  }

  /** Index of the first of the top three classes whose id has no label. */
  predicate FirstUnknown(ranking: seq<Ranked>, id2label: map<int, string>, j: int)
  {
    0 <= j < 3 && j < |ranking| && ranking[j].id !in id2label
    && forall k :: 0 <= k < j ==> ranking[k].id in id2label
  }

  /** The body of `predict`, given the request body and the classifier's
      ranking of all classes. The answer holds exactly three records, in
      ranking order, each with its recommended tests, and the general
      recommendations of the best one. */
  method Predict(body: Option<map<string, string>>, ranking: seq<Ranked>, id2label: map<int, string>)
    returns (r: Result<PredictReply, PredictError>)
    ensures body.None? ==> r == Err(NoJsonBody)
    ensures body.Some? && |ranking| < 3 ==> r == Err(FewerThanThreeClasses)
    ensures r.Ok? <==> body.Some? && |ranking| >= 3 && forall k :: 0 <= k < 3 ==> ranking[k].id in id2label
    ensures body.Some? && |ranking| >= 3 && (exists k :: 0 <= k < 3 && ranking[k].id !in id2label) ==>
              r.Err? && r.error.UnknownLabelId?
    ensures r.Err? && r.error.UnknownLabelId? ==>
              exists j :: FirstUnknown(ranking, id2label, j) && r.error.id == ranking[j].id
    ensures r.Ok? ==>
              && r.value.symptoms == (if "symptoms" in body.value then body.value["symptoms"] else "")
              && |r.value.predictions| == 3
              && (forall k :: 0 <= k < 3 ==> r.value.predictions[k] == PredictionFor(ranking[k], id2label))
              && r.value.recommendations == GeneralRecommendations(r.value.predictions[0].disease)
  {
    if body.None? {
      return Err(NoJsonBody);
    }
    var symptoms := if "symptoms" in body.value then body.value["symptoms"] else "";
    if |ranking| < 3 {
      return Err(FewerThanThreeClasses);
    }
    var results: seq<Prediction> := [];
    for i := 0 to 3
      invariant |results| == i
      invariant forall k :: 0 <= k < i ==> ranking[k].id in id2label && results[k] == PredictionFor(ranking[k], id2label)
    {
      var id := ranking[i].id;
      if id !in id2label {
        assert FirstUnknown(ranking, id2label, i);
        return Err(UnknownLabelId(id));
      }
      var disease := id2label[id];
      results := results + [Prediction(disease, ranking[i].confidence, RecommendedTests(disease))];
    }
    return Ok(PredictReply(symptoms, results, GeneralRecommendations(results[0].disease)));
  }
}
