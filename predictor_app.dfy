/**
 * The interactive disease predictor: after the "Predict Disease" button is
 * pressed, either a warning that nothing was selected, or one styled alert
 * and one table row per predicted disease, best first.
 */
module PredictorApp {
  import opened DiseaseInfo
  import opened Prediction
  import PredictionApi

  /** `st.error`, `st.warning` and `st.success`. */
  datatype Style = ErrorAlert | WarningAlert | SuccessAlert

  /** The alert chosen for a severity: severe as an error, moderate as a warning, the rest as success. */
  function StyleOf(severity: Severity): (s: Style)
    ensures s == ErrorAlert <==> severity == Severe
    ensures s == WarningAlert <==> severity == Moderate
    ensures s == SuccessAlert <==> severity == Mild
  {
    match severity
    case Severe => ErrorAlert
    case Moderate => WarningAlert
    case Mild => SuccessAlert
  }

  /** One entry of `results_table`, with the alert it was shown in. */
  datatype ResultRow = ResultRow(disease: string, percent: real, specialist: string, severity: Severity, style: Style)

  datatype AppOutcome = NoSymptomWarning | Shown(rows: seq<ResultRow>)

  /** The row for class `i`: its probability as a percentage and the disease-list metadata. */
  function RowFor(info: seq<InfoRow>, probs: seq<real>, decode: nat -> string, i: nat): (row: ResultRow)
    requires i < |probs|
    ensures row.disease == decode(i) && row.percent == probs[i] * 100.0
    ensures row.style == StyleOf(row.severity)
    ensures FindRow(info, decode(i)).None? ==> row.specialist == DefaultSpecialist && row.severity == Mild
    ensures FindRow(info, decode(i)).Some? ==>
              row.specialist == FindRow(info, decode(i)).value.specialist &&
              row.severity == FindRow(info, decode(i)).value.severity
  {
    var d := decode(i);
    var m := Describe(info, d);
    ResultRow(d, probs[i] * 100.0, m.specialist, m.severity, StyleOf(m.severity))
  }

  /** The prediction branch run when the button is pressed. */
  method PredictPressed(selected: seq<string>, symptoms: seq<string>, info: seq<InfoRow>,
                        predictProba: seq<int> -> seq<real>, decode: nat -> string,
                        argsort: seq<real> -> seq<nat>)
    returns (outcome: AppOutcome)
    requires forall scores :: IsArgsort(scores, argsort(scores))
    ensures selected == [] <==> outcome == NoSymptomWarning
    ensures outcome.Shown? ==>
              var probs := predictProba(InputVector(symptoms, selected));
              var top := TopOf(argsort(probs), 3);
              && IsTopK(probs, 3, top)
              && |outcome.rows| == |top|
              && forall i :: 0 <= i < |top| ==> outcome.rows[i] == RowFor(info, probs, decode, top[i])
  {
    if selected == [] {
      return NoSymptomWarning;
    }
    var probs := predictProba(InputVector(symptoms, selected));
    var top := TopOf(argsort(probs), 3);
    TopOfArgsort(probs, argsort(probs), 3);
    var table := ResultsTable(info, probs, decode, top);
    return Shown(table);
  }

  /** The `for disease, prob in top_results` loop that shows one alert and appends one row per class. */
  method ResultsTable(info: seq<InfoRow>, probs: seq<real>, decode: nat -> string, top: seq<nat>)
    returns (table: seq<ResultRow>)
    requires forall i :: 0 <= i < |top| ==> top[i] < |probs|
    ensures |table| == |top|
    ensures forall i :: 0 <= i < |top| ==> table[i] == RowFor(info, probs, decode, top[i])
  {
    table := [];
    for n := 0 to |top|
      invariant |table| == n
      invariant forall i :: 0 <= i < n ==> table[i] == RowFor(info, probs, decode, top[i])
    {
      table := table + [RowFor(info, probs, decode, top[n])];
    }
  }

  /** The predictor shows what the API returns for the same class: name, specialist, severity, and the score times 100. */
  lemma AgreesWithApi(info: seq<InfoRow>, probs: seq<real>, decode: nat -> string, i: nat)
    requires i < |probs|
    ensures var row, item := RowFor(info, probs, decode, i), PredictionApi.ItemFor(info, probs, decode, i);
            row.disease == item.disease && row.percent == item.probability * 100.0 &&
            row.specialist == item.specialist && row.severity == item.severity
  {
  }
}
