/** The telemetry loop of `useTelemetry.js`: a day counter advanced once
    per tick, and on every tick a fresh reading for every mine from the
    trend curves at that day plus per-mine noise. */
module Telemetry {
  import opened JsNumber
  import opened Risk
  import opened Mines

  /** The three `Math.random()` draws made for one mine on one tick. */
  datatype TickDraw = TickDraw(phU: real, leadU: real, pm25U: real)

  predicate ValidTickDraw(d: TickDraw) {
    0.0 <= d.phU < 1.0 && 0.0 <= d.leadU < 1.0 && 0.0 <= d.pm25U < 1.0
  }

  predicate ValidTickDraws(draws: seq<TickDraw>) {
    forall k :: 0 <= k < |draws| ==> ValidTickDraw(draws[k])
  }

  /** `phDecay`, `leadGrowth` and `pm25Growth`: the trend plus noise of
      ±0.2, ±4 and ±3, not clamped. */
  function NoisyReading(trend: Trend, d: TickDraw): (r: Trend)
    requires ValidTickDraw(d)
    ensures trend.ph - 0.2 <= r.ph < trend.ph + 0.2
    ensures trend.lead - 4.0 <= r.lead < trend.lead + 4.0
    ensures trend.pm25 - 3.0 <= r.pm25 < trend.pm25 + 3.0
  {
    Trend(trend.ph + Noise(d.phU, 0.4), trend.lead + Noise(d.leadU, 8.0), trend.pm25 + Noise(d.pm25U, 6.0))
  }

  /** The tick's colour ladder, with its own thresholds 35 and 75. */
  function TickColor(score: int): (c: string)
    ensures score >= 75 ==> c == "#f44336"
    ensures 35 <= score < 75 ==> c == "#ff9800"
    ensures score < 35 ==> c == "#4caf50"
  {
    if score >= 75 then "#f44336" else if score >= 35 then "#ff9800" else "#4caf50"
  }

  /** One mine's update inside `prevMines.map`: new readings, score and
      colour; every other field, `status` included, is kept. */
  function UpdateMine(mine: Mine, day: nat, d: TickDraw, curves: real -> Trend): (m: Mine)
    requires ValidTickDraw(d)
    ensures m == mine.(ph := m.ph, lead := m.lead, pm25 := m.pm25, riskScore := m.riskScore, color := m.color)
    ensures var n := NoisyReading(curves(day as real), d);
      && m.riskScore == RiskScore(n.ph, n.lead, n.pm25)
      && m.ph == Clamp(FixedRound(n.ph, 2), 2.0, 10.0)
      && m.lead == Clamp(FixedRound(n.lead, 1), 0.0, 300.0)
      && m.pm25 == Clamp(FixedRound(n.pm25, 1), 0.0, 200.0)
    ensures InBounds(m)
    ensures m.color == TickColor(m.riskScore)
  {
    var n := NoisyReading(curves(day as real), d);
    var score := RiskScore(n.ph, n.lead, n.pm25);
    mine.(ph := Clamp(FixedRound(n.ph, 2), 2.0, 10.0),
          lead := Clamp(FixedRound(n.lead, 1), 0.0, 300.0),
          pm25 := Clamp(FixedRound(n.pm25, 1), 0.0, 200.0),
          riskScore := score,
          color := TickColor(score))
  }

  /** `prevMines.map(...)` on day `day`, mine `k` using draws `draws[k]`. */
  function TickMines(mines: seq<Mine>, day: nat, draws: seq<TickDraw>, curves: real -> Trend): (r: seq<Mine>)
    requires |draws| == |mines| && ValidTickDraws(draws)
    ensures |r| == |mines|
    ensures forall k :: 0 <= k < |r| ==> r[k] == UpdateMine(mines[k], day, draws[k], curves)
  {
    seq(|mines|, k requires 0 <= k < |mines| => UpdateMine(mines[k], day, draws[k], curves))
  }

  /** After a tick the list keeps its length and order, every mine keeps its
      identity, position, names, status and initial offset, and every
      reading is within bounds. */
  lemma {:induction false} TickKeepsIdentity(mines: seq<Mine>, day: nat, draws: seq<TickDraw>, curves: real -> Trend)
    requires |draws| == |mines| && ValidTickDraws(draws)
    ensures var r := TickMines(mines, day, draws, curves);
      |r| == |mines| &&
      forall k :: 0 <= k < |r| ==>
        && r[k].id == mines[k].id && r[k].coordinates == mines[k].coordinates
        && r[k].location == mines[k].location && r[k].county == mines[k].county
        && r[k].name == mines[k].name && r[k].status == mines[k].status
        && r[k].initialDaysOffset == mines[k].initialDaysOffset
        && InBounds(r[k])
  {
    var r := TickMines(mines, day, draws, curves);
    forall k | 0 <= k < |r|
      ensures r[k].id == mines[k].id && r[k].status == mines[k].status && InBounds(r[k])
    {
      var m := UpdateMine(mines[k], day, draws[k], curves);
      assert r[k] == m;
    }
  }

  /** All mines share the trend of the tick's day: their unclamped values
      differ from it only by their own noise, so any two differ by less than
      0.4, 8 and 6. */
  lemma SharedTrend(mines: seq<Mine>, day: nat, draws: seq<TickDraw>, curves: real -> Trend, j: nat, k: nat)
    requires |draws| == |mines| && ValidTickDraws(draws)
    requires j < |mines| && k < |mines|
    ensures var a, b := NoisyReading(curves(day as real), draws[j]), NoisyReading(curves(day as real), draws[k]);
      Abs(a.ph - b.ph) < 0.4 && Abs(a.lead - b.lead) < 8.0 && Abs(a.pm25 - b.pm25) < 6.0
  {
  }

  /** A tick can leave a mine whose status label disagrees with its colour:
      the status of the initial reading stays while the colour follows the
      new score on the 35/75 ladder. */
  lemma StaleStatusAfterTick()
    ensures var mine := Mine(1, [-80.0, 45.0], "Unknown", "Unknown", "Unknown", "MODERATE",
                             6.0, 20.0, 15.0, 40, "#ff9800", 0.0);
      var m := UpdateMine(mine, 1, TickDraw(0.5, 0.5, 0.5), (t: real) => Trend(6.0, 20.0, 15.0));
      m.status == "MODERATE" && m.riskScore == 13 && m.color == "#4caf50"
  {
  }

  /** The closure state of the telemetry effect: the elapsed simulated days,
      and the mines it rewrites on every tick. */
  class TelemetryLoop {
    var elapsedDays: nat
    var mines: seq<Mine>

    constructor (initial: seq<Mine>)
      ensures elapsedDays == 0 && mines == initial
    {
      elapsedDays := 0;
      mines := initial;
    }

    /** One interval callback: advance the day, then recompute every mine at
        that day with its own draws. */
    method Tick(draws: seq<TickDraw>, curves: real -> Trend)
      requires |draws| == |mines| && ValidTickDraws(draws)
      modifies this
      ensures elapsedDays == old(elapsedDays) + 1
      ensures mines == TickMines(old(mines), elapsedDays, draws, curves)
      ensures forall k :: 0 <= k < |mines| ==> InBounds(mines[k])
    {
      elapsedDays := elapsedDays + 1;
      mines := TickMines(mines, elapsedDays, draws, curves);
    }
  }
}
