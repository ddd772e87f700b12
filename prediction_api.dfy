/**
 * The disease prediction HTTP API: `POST /predict` turns a list of symptom
 * names into the three most probable diseases with their specialist and
 * severity, and `GET /symptoms` lists the symptoms the model knows.
 *
 * The loaded resources (model, label encoder, symptom list, disease list
 * and accuracy) are a value handed in; the classifier, the label decoder
 * and the sort are function parameters.
 */
module PredictionApi {
  import opened Wrappers
  import opened DiseaseInfo
  import opened Prediction

  datatype HttpError = HttpError(status: int, detail: string)

  const EmptySymptoms := "symptoms must be a non-empty list"
  const SymptomsNotLoaded := "Symptoms not loaded"

  /** What `load_resources` leaves in the module globals. */
  datatype Resources = Resources(symptoms: seq<string>, info: seq<InfoRow>, accuracy: Option<real>)

  datatype PredictionItem = PredictionItem(disease: string, probability: real, specialist: string, severity: Severity)

  datatype PredictResponse = PredictResponse(predictions: seq<PredictionItem>, accuracy: Option<real>)

  datatype SymptomsResponse = SymptomsResponse(symptoms: seq<string>, accuracy: Option<real>)

  /** One element of `top_results`: the decoded class, its score and its disease-list metadata. */
  function ItemFor(info: seq<InfoRow>, probs: seq<real>, decode: nat -> string, i: nat): (p: PredictionItem)
    requires i < |probs|
    ensures p.disease == decode(i) && p.probability == probs[i]
    ensures FindRow(info, decode(i)).None? ==> p.specialist == DefaultSpecialist && p.severity == Mild
    ensures FindRow(info, decode(i)).Some? ==>
              p.specialist == FindRow(info, decode(i)).value.specialist &&
              p.severity == FindRow(info, decode(i)).value.severity
  {
    var d := decode(i);
    var m := Describe(info, d);
    PredictionItem(d, probs[i], m.specialist, m.severity)
  }

  /** `predict`: the empty check, the input vector, the top three and the per-row lookup. */
  method Predict(symptoms: seq<string>, res: Resources,
                 predictProba: seq<int> -> seq<real>, decode: nat -> string,
                 argsort: seq<real> -> seq<nat>)
    returns (r: Result<PredictResponse, HttpError>)
    requires forall scores :: IsArgsort(scores, argsort(scores))
    ensures symptoms == [] <==> r.Err?
    ensures r.Err? ==> r.error == HttpError(400, EmptySymptoms)
    ensures r.Ok? ==>
              var probs := predictProba(InputVector(res.symptoms, symptoms));
              var top := TopOf(argsort(probs), 3);
              && IsTopK(probs, 3, top)
              && r.value.accuracy == res.accuracy
              && |r.value.predictions| == |top|
              && forall i :: 0 <= i < |top| ==> r.value.predictions[i] == ItemFor(res.info, probs, decode, top[i])
  {
    if symptoms == [] {
      return Err(HttpError(400, EmptySymptoms));
    }
    var probs := predictProba(InputVector(res.symptoms, symptoms));
    var top := TopOf(argsort(probs), 3);
    TopOfArgsort(probs, argsort(probs), 3);
    var results := TopResults(res.info, probs, decode, top);
    return Ok(PredictResponse(results, res.accuracy));
  }

  /** The `for i in top_idx` loop that appends one item per chosen class. */
  method TopResults(info: seq<InfoRow>, probs: seq<real>, decode: nat -> string, top: seq<nat>)
    returns (results: seq<PredictionItem>)
    requires forall i :: 0 <= i < |top| ==> top[i] < |probs|
    ensures |results| == |top|
    ensures forall i :: 0 <= i < |top| ==> results[i] == ItemFor(info, probs, decode, top[i])
  {
    results := [];
    for n := 0 to |top|
      invariant |results| == n
      invariant forall i :: 0 <= i < n ==> results[i] == ItemFor(info, probs, decode, top[i])
    {
      results := results + [ItemFor(info, probs, decode, top[n])];
    }
  }

  /** `get_symptoms`: the symptom list, or 500 when none was loaded. */
  function GetSymptoms(res: Resources): (r: Result<SymptomsResponse, HttpError>)
    ensures r.Err? <==> res.symptoms == []
    ensures r.Err? ==> r.error == HttpError(500, SymptomsNotLoaded)
    ensures r.Ok? ==> r.value.symptoms == res.symptoms && r.value.accuracy == res.accuracy
  {
    if res.symptoms == [] then Err(HttpError(500, SymptomsNotLoaded))
    else Ok(SymptomsResponse(res.symptoms, res.accuracy))
  }
}
