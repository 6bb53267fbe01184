/** The loader of `useMapbox.js`: turns the mine CSV into the list of mines
    and the GeoJSON point features the map draws, one per row whose
    coordinates parse, each with freshly generated sensor data. */
module MapboxParse {
  import opened Wrappers
  import opened JsString
  import opened JsNumber
  import opened CsvTable
  import opened Risk
  import opened Mines

  /** The header positions looked up with `indexOf` (-1 when absent). */
  datatype Columns = Columns(lat: int, lng: int, location: int, county: int, name: int, status: int)

  /** A point feature: its `[lng, lat]` geometry and its properties. */
  datatype Feature = Feature(geometry: seq<real>, properties: Mine)

  function HeaderColumns(headers: seq<string>): (cols: Columns)
    ensures cols.lat == IndexOf(headers, "Lat_DD") && cols.lng == IndexOf(headers, "Long_DD")
    ensures cols.location == IndexOf(headers, "Location") && cols.county == IndexOf(headers, "County")
    ensures cols.name == IndexOf(headers, "Name") && cols.status == IndexOf(headers, "Status")
  {
    Columns(IndexOf(headers, "Lat_DD"), IndexOf(headers, "Long_DD"), IndexOf(headers, "Location"),
            IndexOf(headers, "County"), IndexOf(headers, "Name"), IndexOf(headers, "Status"))
  }

  /** The mine built from line `i` with the sensor data `sim` generated for
      it. A line gives a mine exactly when both coordinates parse; the mine
      sits at `[lng, lat]`, takes its names from the row with "Unknown" for
      a missing or empty cell, and takes every generated field. The
      generated fields are spread last, so the generated status replaces
      the CSV's own `Status`. */
  function RowMine(line: string, i: int, cols: Columns, sim: SensorData): (r: Option<Mine>)
    ensures var row := Split(line, ',');
      var lat, lng := ParseCell(Cell(row, cols.lat)), ParseCell(Cell(row, cols.lng));
      && (r.Some? <==> lat.Some? && lng.Some?)
      && (r.Some? ==>
        && r.value.id == i
        && r.value.coordinates == [lng.value, lat.value]
        && r.value.location == OrDefault(Cell(row, cols.location), "Unknown")
        && r.value.county == OrDefault(Cell(row, cols.county), "Unknown")
        && r.value.name == OrDefault(Cell(row, cols.name), "Unknown")
        && r.value.status == sim.status && r.value.color == sim.color && r.value.riskScore == sim.riskScore
        && r.value.ph == sim.ph && r.value.lead == sim.lead && r.value.pm25 == sim.pm25
        && r.value.initialDaysOffset == sim.initialDaysOffset)
  {
    var row := Split(line, ',');
    var lat := ParseCell(Cell(row, cols.lat));
    var lng := ParseCell(Cell(row, cols.lng));
    if lat.Some? && lng.Some? then
      Some(Mine(i, [lng.value, lat.value],
                OrDefault(Cell(row, cols.location), "Unknown"),
                OrDefault(Cell(row, cols.county), "Unknown"),
                OrDefault(Cell(row, cols.name), "Unknown"),
                sim.status, sim.ph, sim.lead, sim.pm25, sim.riskScore, sim.color, sim.initialDaysOffset))
    else
      None
  }

  /** What line `i` gives, with `sims(i)` the sensor data generated for it:
      None for the header line 0 and for a line whose coordinates do not
      parse. */
  function LineMine(lines: seq<string>, i: nat, cols: Columns, sims: nat -> SensorData): (r: Option<Mine>)
    requires i < |lines|
  {
    if i == 0 then None else RowMine(lines[i], i, cols, sims(i))
  }

  /** What each of the first `n` lines gives, in order. */
  function LineMines(lines: seq<string>, n: nat, cols: Columns, sims: nat -> SensorData): (rows: seq<Option<Mine>>)
    requires n <= |lines|
    ensures |rows| == n
    ensures n > 0 ==> rows[0] == None
  {
    if n == 0 then [] else LineMines(lines, n - 1, cols, sims) + [LineMine(lines, n - 1, cols, sims)]
  }

  lemma {:induction false} LineMinesAt(lines: seq<string>, n: nat, cols: Columns, sims: nat -> SensorData, i: nat)
    requires n <= |lines| && i < n
    ensures LineMines(lines, n, cols, sims)[i] == LineMine(lines, i, cols, sims)
  {
    var prev := LineMines(lines, n - 1, cols, sims);
    assert LineMines(lines, n, cols, sims) == prev + [LineMine(lines, n - 1, cols, sims)];
    if i < n - 1 {
      LineMinesAt(lines, n - 1, cols, sims, i);
    }
  }

  /** Mines read from lines carry those lines' numbers as ids, so the list
      is sorted by id without repeats and each id names its own line. */
  lemma {:induction false} MinesSortedById(rows: seq<Option<Mine>>, n: nat)
    requires n <= |rows|
    requires forall i :: 0 <= i < |rows| && rows[i].Some? ==> rows[i].value.id == i
    ensures forall k :: 0 <= k < |Present(rows, n)| ==>
      0 <= Present(rows, n)[k].id < n && rows[Present(rows, n)[k].id] == Some(Present(rows, n)[k])
    ensures forall j, k :: 0 <= j < k < |Present(rows, n)| ==> Present(rows, n)[j].id < Present(rows, n)[k].id
    decreases n
  {
    if n > 0 {
      MinesSortedById(rows, n - 1);
      var prev := Present(rows, n - 1);
      var ms := Present(rows, n);
      if rows[n - 1].Some? {
        assert ms == prev + [rows[n - 1].value];
        forall k | 0 <= k < |ms|
          ensures 0 <= ms[k].id < n && rows[ms[k].id] == Some(ms[k])
        {
          if k < |prev| {
            assert ms[k] == prev[k];
          } else {
            assert ms[k] == rows[n - 1].value && ms[k].id == n - 1;
          }
        }
      } else {
        assert ms == prev;
      }
    }
  }

  /** Every mine the loader keeps has readings within the clamping bounds. */
  lemma ParsedMinesInBounds(lines: seq<string>, cols: Columns, draws: nat -> InitDraw, curves: real -> Trend)
    requires |lines| >= 1 && forall i: nat :: ValidDraw(draws(i))
    ensures var ms := Present(LineMines(lines, |lines|, cols, Generated(draws, curves)), |lines|);
      forall k :: 0 <= k < |ms| ==> InBounds(ms[k])
  {
    var sims := Generated(draws, curves);
    var rows := LineMines(lines, |lines|, cols, sims);
    forall i | 0 <= i < |rows| && rows[i].Some?
      ensures rows[i].value.id == i && InBounds(rows[i].value)
    {
      LineMinesAt(lines, |lines|, cols, sims, i);
    }
    MinesSortedById(rows, |lines|);
  }

  /** Without a `Lat_DD` column no coordinate parses and the map is empty. */
  lemma NoLatitudeColumnNoMines(line: string, i: int, cols: Columns, sim: SensorData)
    requires cols.lat == -1
    ensures RowMine(line, i, cols, sim) == None
  {
  }

  /** The point feature of each mine, at the mine's own coordinates. */
  function FeaturesOf(ms: seq<Mine>): (fs: seq<Feature>)
    ensures |fs| == |ms|
    ensures forall k :: 0 <= k < |fs| ==> fs[k].properties == ms[k] && fs[k].geometry == ms[k].coordinates
  {
    seq(|ms|, k requires 0 <= k < |ms| => Feature(ms[k].coordinates, ms[k]))
  }

  lemma FeaturesOfAppend(ms: seq<Mine>, m: Mine)
    ensures FeaturesOf(ms + [m]) == FeaturesOf(ms) + [Feature(m.coordinates, m)]
  {
  }

  /** The sensor data of each line: the `generateSensorData()` call for
      line `i` draws `draws(i)`. */
  function Generated(draws: nat -> InitDraw, curves: real -> Trend): (sims: nat -> SensorData)
    requires forall i: nat :: ValidDraw(draws(i))
  {
    (i: nat) => GenerateSensorData(draws(i), curves)
  }

  /** The `.then(csvText => ...)` callback: the mines, and the features that
      carry them as properties with the same `[lng, lat]` geometry. */
  method ParseMines(csvText: string, draws: nat -> InitDraw, curves: real -> Trend)
    returns (minesData: seq<Mine>, features: seq<Feature>)
    requires forall i: nat :: ValidDraw(draws(i))
    ensures var lines := Lines(csvText);
      var rows := LineMines(lines, |lines|, HeaderColumns(Split(lines[0], ',')), Generated(draws, curves));
      minesData == Present(rows, |rows|)
    ensures forall k :: 0 <= k < |minesData| ==> InBounds(minesData[k])
    ensures features == FeaturesOf(minesData)
  {
    var lines := Lines(csvText);
    var headers := Split(lines[0], ',');
    var cols := HeaderColumns(headers);
    minesData, features := CollectMines(lines, cols, draws, curves);
    ParsedMinesInBounds(lines, cols, draws, curves);
  }

  /** The loop over the data lines 1 to the last. */
  method CollectMines(lines: seq<string>, cols: Columns, draws: nat -> InitDraw, curves: real -> Trend)
    returns (minesData: seq<Mine>, features: seq<Feature>)
    requires |lines| >= 1 && forall i: nat :: ValidDraw(draws(i))
    ensures minesData == Present(LineMines(lines, |lines|, cols, Generated(draws, curves)), |lines|)
    ensures features == FeaturesOf(minesData)
  {
    ghost var rows := LineMines(lines, |lines|, cols, Generated(draws, curves));
    features := [];
    minesData := [];
    var i := 1;
    while i < |lines|
      invariant 1 <= i <= |lines|
      invariant minesData == Present(rows, i)
      invariant features == FeaturesOf(minesData)
    {
      var mineData := ReadRow(lines, i, cols, draws, curves, rows);
      if mineData.Some? {
        FeaturesOfAppend(minesData, mineData.value);
        features := features + [Feature(mineData.value.coordinates, mineData.value)];
        minesData := minesData + [mineData.value];
      }
      i := i + 1;
    }
  }

  /** The body of the loop for one line: split it, parse both coordinates
      and, when neither is NaN, generate the sensor data and build the
      mine. */
  method ReadRow(lines: seq<string>, i: nat, cols: Columns, draws: nat -> InitDraw, curves: real -> Trend,
                 ghost rows: seq<Option<Mine>>)
    returns (mine: Option<Mine>)
    requires 1 <= i < |lines| && forall j: nat :: ValidDraw(draws(j))
    requires rows == LineMines(lines, |lines|, cols, Generated(draws, curves))
    ensures mine == rows[i]
  {
    LineMinesAt(lines, |lines|, cols, Generated(draws, curves), i);
    var row := Split(lines[i], ',');
    var lat := ParseCell(Cell(row, cols.lat));
    var lng := ParseCell(Cell(row, cols.lng));
    if lat.Some? && lng.Some? {
      var simData := GenerateSensorData(draws(i), curves);
      mine := Some(Mine(i, [lng.value, lat.value],
                        OrDefault(Cell(row, cols.location), "Unknown"),
                        OrDefault(Cell(row, cols.county), "Unknown"),
                        OrDefault(Cell(row, cols.name), "Unknown"),
                        simData.status, simData.ph, simData.lead, simData.pm25,
                        simData.riskScore, simData.color, simData.initialDaysOffset));
    } else {
      mine := None;
    }
  }
}
