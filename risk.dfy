/** The initial reading generator of `risk.js`: an age drawn in [0, 400)
    days, the three trend curves at that age plus noise, clamped, scored and
    classified with the 30/60 status ladder. */
module Risk {
  import opened JsNumber

  /** pH, lead (ppm) and PM2.5 (µg/m³) values, before or after clamping. */
  datatype Trend = Trend(ph: real, lead: real, pm25: real)

  /** The four `Math.random()` draws of one call, in source order. */
  datatype InitDraw = InitDraw(age: real, phU: real, leadU: real, pm25U: real)

  predicate ValidDraw(d: InitDraw) {
    0.0 <= d.age < 1.0 && 0.0 <= d.phU < 1.0 && 0.0 <= d.leadU < 1.0 && 0.0 <= d.pm25U < 1.0
  }

  /** `(Math.random() - 0.5) * width`: centred noise, half-open at the top. */
  function Noise(u: real, width: real): (n: real)
    requires 0.0 <= u < 1.0 && width > 0.0
    ensures -width / 2.0 <= n < width / 2.0
  {
    MulLe(-0.5, u - 0.5, width);
    assert (0.5 - (u - 0.5)) * width > 0.0;
    (u - 0.5) * width
  }

  /** Sub-score for acidity: 15 points per pH unit below 7, within [0, 100]. */
  function PhScore(ph: real): (s: real)
    ensures 0.0 <= s <= 100.0
    ensures ph >= 7.0 ==> s == 0.0
  {
    Clamp((7.0 - ph) * 15.0, 0.0, 100.0)
  }

  /** Sub-score for lead: half a point per ppm, within [0, 100]. */
  function LeadScore(lead: real): (s: real)
    ensures 0.0 <= s <= 100.0
    ensures lead >= 200.0 ==> s == 100.0
  {
    Clamp((lead / 100.0) * 50.0, 0.0, 100.0)
  }

  /** Sub-score for PM2.5: one point per µg/m³, within [0, 100]. */
  function Pm25Score(pm25: real): (s: real)
    ensures 0.0 <= s <= 100.0
    ensures pm25 >= 100.0 ==> s == 100.0
  {
    Clamp((pm25 / 50.0) * 50.0, 0.0, 100.0)
  }

  /** `Math.round` of the mean of the three sub-scores. */
  function RiskScore(ph: real, lead: real, pm25: real): (r: int)
    ensures 0 <= r <= 100
  {
    var mean := (PhScore(ph) + LeadScore(lead) + Pm25Score(pm25)) / 3.0;
    MathRoundWithin(mean, 0, 100);
    MathRound(mean)
  }

  /** The score never rises with pH and never falls with lead or PM2.5. */
  lemma RiskScoreMonotone(ph1: real, lead1: real, pm1: real, ph2: real, lead2: real, pm2: real)
    requires ph1 >= ph2 && lead1 <= lead2 && pm1 <= pm2
    ensures RiskScore(ph1, lead1, pm1) <= RiskScore(ph2, lead2, pm2)
  {
    ClampMonotone((7.0 - ph1) * 15.0, (7.0 - ph2) * 15.0, 0.0, 100.0);
    ClampMonotone((lead1 / 100.0) * 50.0, (lead2 / 100.0) * 50.0, 0.0, 100.0);
    ClampMonotone((pm1 / 50.0) * 50.0, (pm2 / 50.0) * 50.0, 0.0, 100.0);
    MathRoundMonotone((PhScore(ph1) + LeadScore(lead1) + Pm25Score(pm1)) / 3.0,
                      (PhScore(ph2) + LeadScore(lead2) + Pm25Score(pm2)) / 3.0);
  }

  /** Any pH at or above 7 adds nothing to the score. */
  lemma NeutralPhAddsNothing(ph: real, lead: real, pm25: real)
    requires ph >= 7.0
    ensures RiskScore(ph, lead, pm25) == RiskScore(7.0, lead, pm25)
  {
  }

  /** Clamping lead to [0, 300] and PM2.5 to [0, 200] never changes the
      score, and neither does clamping pH to [2, 10] for a pH of at least 2:
      the sub-scores saturate inside those bounds. */
  lemma ClampingKeepsScore(ph: real, lead: real, pm25: real)
    requires ph >= 2.0
    ensures RiskScore(Clamp(ph, 2.0, 10.0), Clamp(lead, 0.0, 300.0), Clamp(pm25, 0.0, 200.0))
         == RiskScore(ph, lead, pm25)
  {
  }

  datatype Status = LowRisk | Moderate | Critical

  /** The status ladder of `risk.js`: two successive upgrades at 30 and 60. */
  function StatusOf(score: int): (s: Status)
    ensures s == LowRisk <==> score < 30
    ensures s == Moderate <==> 30 <= score < 60
    ensures s == Critical <==> score >= 60
  {
    var s := if score >= 30 then Moderate else LowRisk;
    if score >= 60 then Critical else s
  }

  function StatusLabel(s: Status): string {
    match s
    case LowRisk => "LOW RISK"
    case Moderate => "MODERATE"
    case Critical => "CRITICAL"
  }

  function StatusColor(s: Status): string {
    match s
    case LowRisk => "#4caf50"
    case Moderate => "#ff9800"
    case Critical => "#ff1744"
  }

  /** The colour and the label each identify the status. */
  lemma StatusColorDistinct(s: Status, t: Status)
    ensures StatusColor(s) == StatusColor(t) <==> s == t
    ensures StatusLabel(s) == StatusLabel(t) <==> s == t
  {
  }

  /** What `generateSensorData` returns. */
  datatype SensorData = SensorData(
    ph: real, lead: real, pm25: real, riskScore: int, status: string, color: string, initialDaysOffset: real)

  /** The trend values plus the doubled initial noise (±0.4, ±10, ±7.5),
      clamped to [2, 10], [0, 300] and [0, 200]. */
  function InitialReading(trend: Trend, d: InitDraw): (r: Trend)
    requires ValidDraw(d)
    ensures 2.0 <= r.ph <= 10.0 && 0.0 <= r.lead <= 300.0 && 0.0 <= r.pm25 <= 200.0
    ensures Abs(r.ph - trend.ph) <= 0.4 || r.ph == 2.0 || r.ph == 10.0
    ensures Abs(r.lead - trend.lead) <= 10.0 || r.lead == 0.0 || r.lead == 300.0
    ensures Abs(r.pm25 - trend.pm25) <= 7.5 || r.pm25 == 0.0 || r.pm25 == 200.0
  {
    Trend(
      Clamp(trend.ph + Noise(d.phU, 0.8), 2.0, 10.0),
      Clamp(trend.lead + Noise(d.leadU, 20.0), 0.0, 300.0),
      Clamp(trend.pm25 + Noise(d.pm25U, 15.0), 0.0, 200.0))
  }

  /** `generateSensorData()`: `curves(t)` stands for the pH decay, lead growth
      and PM2.5 growth curves at `t` simulated days. */
  function GenerateSensorData(d: InitDraw, curves: real -> Trend): (r: SensorData)
    requires ValidDraw(d)
    ensures r.initialDaysOffset == d.age * 400.0 && 0.0 <= r.initialDaysOffset < 400.0
    ensures var c := InitialReading(curves(r.initialDaysOffset), d);
      && r.riskScore == RiskScore(c.ph, c.lead, c.pm25)
      && r.ph == FixedRound(c.ph, 2) && r.lead == FixedRound(c.lead, 1) && r.pm25 == FixedRound(c.pm25, 1)
    ensures 2.0 <= r.ph <= 10.0 && 0.0 <= r.lead <= 300.0 && 0.0 <= r.pm25 <= 200.0
    ensures 0 <= r.riskScore <= 100
    ensures r.status == StatusLabel(StatusOf(r.riskScore)) && r.color == StatusColor(StatusOf(r.riskScore))
  {
    var days := d.age * 400.0;
    var c := InitialReading(curves(days), d);
    var score := RiskScore(c.ph, c.lead, c.pm25);
    ToFixedWithin(c.ph, 2, 2, 10);
    ToFixedWithin(c.lead, 1, 0, 300);
    ToFixedWithin(c.pm25, 1, 0, 200);
    var status := StatusOf(score);
    SensorData(FixedRound(c.ph, 2), FixedRound(c.lead, 1), FixedRound(c.pm25, 1), score,
               StatusLabel(status), StatusColor(status), days)
  }
}
