/** The details panel `MineDetailsDashboard`: which mine it shows, which
    history it plots and how it labels each live sensor reading. The
    markup itself is not modelled. */
module MineDetails {
  import opened Wrappers
  import opened Mines
  import opened SensorHistory
  import opened Telemetry
  import opened Risk

  /** The clicked feature: its `[lng, lat]` and the mine in its properties. */
  datatype Popup = Popup(coordinates: seq<real>, properties: Mine)

  /** The three verdicts of a sensor ladder. */
  datatype Level = Hazardous | Warning | Safe
  {
    function Label(): string {
      match this
      case Hazardous => "✗ Hazardous"
      case Warning => "⚠ Warning"
      case Safe => "✓ Safe"
    }

    function Color(): string {
      match this
      case Hazardous => "#f44336"
      case Warning => "#ff9800"
      case Safe => "#4caf50"
    }

    /** 2 for the worst verdict, 0 for the best. */
    function Severity(): nat {
      match this
      case Hazardous => 2
      case Warning => 1
      case Safe => 0
    }
  }

  /** What the panel shows for a selected mine. */
  datatype Panel = Panel(mine: Mine, history: seq<Reading>, title: string, ph: Level, lead: Level, pm25: Level)

  /** The water-acidity verdict: below 5.0 hazardous, below 6.8 a warning. */
  function PhLevel(ph: real): (l: Level)
    ensures l == Hazardous <==> ph < 5.0
    ensures l == Warning <==> 5.0 <= ph < 6.8
    ensures l == Safe <==> ph >= 6.8
  {
    if ph < 5.0 then Hazardous else if ph < 6.8 then Warning else Safe
  }

  /** The soil-lead verdict: above 70 ppm hazardous, above 40 a warning. */
  function LeadLevel(lead: real): (l: Level)
    ensures l == Hazardous <==> lead > 70.0
    ensures l == Warning <==> 40.0 < lead <= 70.0
    ensures l == Safe <==> lead <= 40.0
  {
    if lead > 70.0 then Hazardous else if lead > 40.0 then Warning else Safe
  }

  /** The air-quality verdict: above 80 hazardous, above 20 a warning. */
  function Pm25Level(pm25: real): (l: Level)
    ensures l == Hazardous <==> pm25 > 80.0
    ensures l == Warning <==> 20.0 < pm25 <= 80.0
    ensures l == Safe <==> pm25 <= 20.0
  {
    if pm25 > 80.0 then Hazardous else if pm25 > 20.0 then Warning else Safe
  }

  /** More acid water is never judged better, more lead or dust never
      better either. */
  lemma LevelsMonotone(x: real, y: real)
    requires x <= y
    ensures PhLevel(y).Severity() <= PhLevel(x).Severity()
    ensures LeadLevel(x).Severity() <= LeadLevel(y).Severity()
    ensures Pm25Level(x).Severity() <= Pm25Level(y).Severity()
  {
  }

  /** The label and the colour each tell the verdict apart. */
  lemma LevelShownOnce(l: Level, m: Level)
    ensures l.Label() == m.Label() <==> l == m
    ensures l.Color() == m.Color() <==> l == m
  {
  }

  /** The ladders' boundary cases: lead at exactly 70 is only a warning,
      dust at exactly 20 is safe, pH at exactly 5.0 is a warning. */
  lemma LevelBoundaries()
    ensures LeadLevel(70.0) == Warning && Pm25Level(20.0) == Safe && PhLevel(5.0) == Warning
  {
  }

  /** The position where `allMines.find(m => m.id === id)` stops: the first
      one holding that id, or -1 when there is none. */
  function FindIndex(mines: seq<Mine>, id: int): (i: int)
    ensures -1 <= i < |mines|
    ensures i >= 0 ==> mines[i].id == id && forall j :: 0 <= j < i ==> mines[j].id != id
    ensures i == -1 <==> forall j :: 0 <= j < |mines| ==> mines[j].id != id
    decreases |mines|
  {
    if |mines| == 0 then -1
    else if mines[0].id == id then 0
    else
      var j := FindIndex(mines[1..], id);
      assert forall k :: 0 <= k < |mines| - 1 ==> mines[1..][k] == mines[k + 1];
      if j == -1 then -1 else j + 1
  }

  /** The live record of the clicked mine, or the clicked properties when
      the live list has no mine with that id. Either way it is the mine of
      the popup's id. */
  function CurrentMine(popup: Popup, allMines: seq<Mine>): (m: Mine)
    ensures m.id == popup.properties.id
    ensures FindIndex(allMines, popup.properties.id) >= 0 ==> m == allMines[FindIndex(allMines, popup.properties.id)] && m in allMines
    ensures FindIndex(allMines, popup.properties.id) == -1 ==> m == popup.properties
  {
    var i := FindIndex(allMines, popup.properties.id);
    if i >= 0 then allMines[i] else popup.properties
  }

  /** `telemetryHistory[id] || []`: a stored array, even an empty one, is
      truthy. */
  function MineHistory(telemetryHistory: map<int, seq<Reading>>, id: int): (h: seq<Reading>)
    ensures id in telemetryHistory ==> h == telemetryHistory[id]
    ensures id !in telemetryHistory ==> h == []
  {
    if id in telemetryHistory then telemetryHistory[id] else []
  }

  /** The panel, or nothing when no popup is open. */
  function Details(popup: Option<Popup>, telemetryHistory: map<int, seq<Reading>>, allMines: seq<Mine>): (p: Option<Panel>)
    ensures p.None? <==> popup.None?
    ensures p.Some? ==>
      && p.value.mine == CurrentMine(popup.value, allMines)
      && p.value.mine.id == popup.value.properties.id
      && p.value.history == MineHistory(telemetryHistory, p.value.mine.id)
      && (p.value.mine.name == "" ==> p.value.title == "Unknown Mine")
      && (p.value.mine.name != "" ==> p.value.title == p.value.mine.name)
      && p.value.ph == PhLevel(p.value.mine.ph)
      && p.value.lead == LeadLevel(p.value.mine.lead)
      && p.value.pm25 == Pm25Level(p.value.mine.pm25)
  {
    match popup
    case None => None
    case Some(pop) =>
      var mine := CurrentMine(pop, allMines);
      Some(Panel(mine, MineHistory(telemetryHistory, mine.id),
                 if mine.name != "" then mine.name else "Unknown Mine",
                 PhLevel(mine.ph), LeadLevel(mine.lead), Pm25Level(mine.pm25)))
  }

  /** Two lists with the same ids in the same places find the same
      position. */
  lemma SameIdsSameIndex(a: seq<Mine>, b: seq<Mine>, id: int)
    requires |a| == |b| && forall k :: 0 <= k < |a| ==> a[k].id == b[k].id
    ensures FindIndex(a, id) == FindIndex(b, id)
  {
  }

  /** An open panel follows the live data: after a telemetry tick it shows
      the same mine, with its freshly ticked readings. */
  lemma PanelFollowsTick(popup: Popup, mines: seq<Mine>, day: nat, draws: seq<TickDraw>, curves: real -> Trend)
    requires |draws| == |mines| && ValidTickDraws(draws)
    ensures var i := FindIndex(mines, popup.properties.id);
      CurrentMine(popup, TickMines(mines, day, draws, curves))
        == if i >= 0 then UpdateMine(mines[i], day, draws[i], curves) else popup.properties
  {
    var ticked := TickMines(mines, day, draws, curves);
    SameIdsSameIndex(mines, ticked, popup.properties.id);
  }
}
