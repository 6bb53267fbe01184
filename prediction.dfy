/** The one-year forecast of `predictionEngine.js`: a per-sensor change
    scaled by an instability factor that grows with the risk score, applied
    to the current value and rounded with `toFixed`. */
module Prediction {
  import opened Wrappers
  import opened JsNumber

  /** The object the forecast returns. `predictedValue` and `trend` are
      `undefined` (None) for an unknown sensor type. */
  datatype Forecast = Forecast(predictedValue: Option<string>, changeAmount: string, trend: Option<string>, text: string)

  /** The numeric part of a known sensor's forecast: the rounded prediction,
      the raw change and the trend arrow. */
  datatype Step = Step(predicted: Decimal, change: real, icon: string)

  /** `1 + riskScore / 50`: 1 for a safe mine, 3 for a score of 100. */
  function Instability(riskScore: int): (i: real)
    ensures riskScore >= 0 ==> i >= 1.0
    ensures riskScore == 0 ==> i == 1.0
    ensures riskScore == 100 ==> i == 3.0
  {
    1.0 + riskScore as real / 50.0
  }

  /** The instability factor rises strictly with the risk score. */
  lemma InstabilityIncreasing(a: int, b: int)
    requires a < b
    ensures Instability(a) < Instability(b)
  {
  }

  /** `0.2 * instability * (0.9 + u * 0.2)`: within ±10% of 0.2 units per
      unit of instability. */
  function PhChange(inst: real, u: real): (c: real)
    requires inst >= 0.0 && 0.0 <= u < 1.0
    ensures 0.18 * inst <= c <= 0.22 * inst
  {
    MulLe(0.9, 0.9 + u * 0.2, 0.2 * inst);
    MulLe(0.9 + u * 0.2, 1.1, 0.2 * inst);
    0.2 * inst * (0.9 + u * 0.2)
  }

  /** `5 * instability * (0.9 + u * 0.2)`: within ±10% of 5 units per unit
      of instability. */
  function Pm25Change(inst: real, u: real): (c: real)
    requires inst >= 0.0 && 0.0 <= u < 1.0
    ensures 4.5 * inst <= c <= 5.5 * inst
  {
    MulLe(0.9, 0.9 + u * 0.2, 5.0 * inst);
    MulLe(0.9 + u * 0.2, 1.1, 5.0 * inst);
    5.0 * inst * (0.9 + u * 0.2)
  }

  /** `(val - change).toFixed(1)`, replaced by "0.0" when it reads as a
      negative number; "-0.0" reads as zero and is kept. */
  function PhPredicted(val: real, change: real): (p: Decimal)
    ensures p.places == 1 && Value(p) >= 0.0
    ensures Value(ToFixed(val - change, 1)) >= 0.0 ==> p == ToFixed(val - change, 1)
    ensures Value(ToFixed(val - change, 1)) < 0.0 ==> p == Decimal(false, 0, 1)
  {
    var q := ToFixed(val - change, 1);
    if Value(q) < 0.0 then Decimal(false, 0, 1) else q
  }

  /** The branch taken for each sensor type; None for any other type, where
      the source leaves `predicted`, `change` and `trendIcon` undefined. */
  function PredictStep(val: real, sensorType: string, riskScore: int, u: real): (r: Option<Step>)
    requires 0.0 <= u < 1.0 && riskScore >= 0
    ensures r.Some? <==> sensorType in {"ph", "lead", "pm25"}
    ensures sensorType == "ph" ==> r.value.icon == "↘" && r.value.predicted.places == 1
    ensures sensorType in {"lead", "pm25"} ==> r.value.icon == "↗" && r.value.predicted.places == 0
  {
    var inst := Instability(riskScore);
    if sensorType == "ph" then
      var change := PhChange(inst, u);
      Some(Step(PhPredicted(val, change), change, "↘"))
    else if sensorType == "lead" then
      var change := val * (0.05 * inst);
      Some(Step(ToFixed(val + change, 0), change, "↗"))
    else if sensorType == "pm25" then
      var change := Pm25Change(inst, u);
      Some(Step(ToFixed(val + change, 0), change, "↗"))
    else
      None
  }

  /** `getUnit`: the unit label of a sensor type, empty for any other. */
  function GetUnit(sensorType: string): (unit: string)
    ensures sensorType == "ph" ==> unit == "pH"
    ensures sensorType == "lead" ==> unit == "ppm"
    ensures sensorType == "pm25" ==> unit == "µg/m³"
    ensures unit == "" <==> sensorType !in {"ph", "lead", "pm25"}
  {
    if sensorType == "ph" then "pH"
    else if sensorType == "lead" then "ppm"
    else if sensorType == "pm25" then "µg/m³"
    else ""
  }

  /** `getOneYearPrediction(currentValue, sensorType, riskScore)` with the
      value already a number and `u` the `Math.random()` draw. */
  function GetOneYearPrediction(val: real, sensorType: string, riskScore: int, u: real): (f: Forecast)
    requires 0.0 <= u < 1.0 && riskScore >= 0
    ensures f.predictedValue.Some? <==> sensorType in {"ph", "lead", "pm25"}
    ensures f.trend.Some? <==> sensorType in {"ph", "lead", "pm25"}
    ensures f.predictedValue.None? ==> f.changeAmount == "NaN" && f.text == " undefined undefined "
    ensures f.predictedValue.Some? ==>
      var s := PredictStep(val, sensorType, riskScore, u).value;
      && f.predictedValue.value == Render(s.predicted)
      && f.changeAmount == Render(ToFixed(Abs(s.change), 1))
      && f.text == " " + s.icon + " " + Render(s.predicted) + " " + GetUnit(sensorType)
  {
    match PredictStep(val, sensorType, riskScore, u)
    case None =>
      Forecast(None, "NaN", None, " " + "undefined" + " " + "undefined" + " " + GetUnit(sensorType))
    case Some(s) =>
      Forecast(Some(Render(s.predicted)), Render(ToFixed(Abs(s.change), 1)), Some(s.icon),
               " " + s.icon + " " + Render(s.predicted) + " " + GetUnit(sensorType))
  }

  /** The predicted pH never reads below zero and, for a positive current
      pH, is strictly below it: pH only degrades. */
  lemma {:induction false} PhFalls(val: real, riskScore: int, u: real)
    requires 0.0 <= u < 1.0 && riskScore >= 0
    ensures var p := Value(PredictStep(val, "ph", riskScore, u).value.predicted);
      p >= 0.0 && (val > 0.0 ==> p < val)
  {
    var change := PhChange(Instability(riskScore), u);
    ToFixedClose(val - change, 1);
    assert Pow10(1) == 10;
  }

  /** The predicted lead is the current value grown by 5% per unit of
      instability, rounded to a whole ppm. */
  lemma {:induction false} LeadGrows(val: real, riskScore: int, u: real)
    requires 0.0 <= u < 1.0 && riskScore >= 0
    ensures var p := Value(PredictStep(val, "lead", riskScore, u).value.predicted);
      var target := val * (1.0 + 0.05 * Instability(riskScore));
      target - 0.5 <= p <= target + 0.5
  {
    var inst := Instability(riskScore);
    ToFixedClose(val + val * (0.05 * inst), 0);
    assert Pow10(0) == 1;
    assert val + val * (0.05 * inst) == val * (1.0 + 0.05 * inst);
  }

  /** The predicted PM2.5 rises by at least 4 µg/m³ over the current value,
      and by at most 6 per unit of instability. */
  lemma {:induction false} Pm25Rises(val: real, riskScore: int, u: real)
    requires 0.0 <= u < 1.0 && riskScore >= 0
    ensures var p := Value(PredictStep(val, "pm25", riskScore, u).value.predicted);
      val + 4.0 <= p <= val + 6.0 * Instability(riskScore)
  {
    var inst := Instability(riskScore);
    var change := Pm25Change(inst, u);
    ToFixedClose(val + change, 0);
    assert Pow10(0) == 1;
  }

  /** A critical lead reading of 20 ppm at score 100 is forecast as 23 ppm,
      a change of 3.0. */
  lemma LeadScenario()
    ensures var f := GetOneYearPrediction(20.0, "lead", 100, 0.0);
      f.predictedValue == Some("23") && f.changeAmount == "3.0" && f.text == " ↗ 23 ppm"
  {
    var s := PredictStep(20.0, "lead", 100, 0.0).value;
    assert s.change == 3.0;
    assert ToFixed(23.0, 0) == Decimal(false, 23, 0);
    assert ToFixed(3.0, 1) == Decimal(false, 30, 1);
    assert NatDigits(23) == "23" && Padded(23, 0) == "23";
    assert NatDigits(30) == "30" && Padded(30, 1) == "30";
    assert Render(Decimal(false, 23, 0)) == "23";
    assert Render(Decimal(false, 30, 1)) == "3.0";
  }
}
