# Mine telemetry dashboard — Dafny model

This project models the computing core of the mine-monitoring dashboard. That core has these parts:

- **Initial reading.** Each mine gets a simulated starting reading of water pH, lead (ppm) and PM2.5 (µg/m³). Each value is clamped to its bounds. The three clamped values give three sub-scores, their rounded mean is a 0–100 risk score, and the score falls on a three-step status/colour ladder (thresholds 30 and 60).
- **Telemetry tick.** Once a second a day counter advances. Every mine's readings, risk score and colour are recomputed from shared trend curves plus per-mine noise, using a second colour ladder (thresholds 35 and 75).
- **One-year predictor.** It extrapolates one sensor, scaled by an instability factor that grows with the risk score.
- **Per-mine history.** A buffer of at most 30 rounded readings per mine, updated in place.
- **CSV parsers.**
  - The loader turns the mine CSV into mine records and GeoJSON point features; coordinates are longitude first, as in section 3.1.1 of RFC 7946.
  - The conversion script turns the same CSV into one feature collection for every mine plus one per jurisdiction.
  - Both split on every comma; quoted fields are not handled as RFC 4180 would.
- **Details panel.** It looks up the selected mine and its history, and runs three sensor verdict ladders.
- **Browser CSV export.** It builds the file content and sanitises the file name.
- **SQLite server.**
  - It validates a posted reading.
  - It builds the filtered query string and its parameters.
  - It returns a mine's readings oldest-first.
  - It builds the CSV export body.

How the source's external inputs are modelled:

- **Random draws.** Each `Math.random()` draw is a parameter in [0, 1).
- **Trend curves.** The exponential and logarithmic curves are one parameter, `curves`, mapping a day to a `Trend`.
- **Current time.** The clock time, and the ISO timestamp used in file names, are string parameters.
- **Number to string.** Conversion of an arbitrary number is a parameter, `show`.
- **`toFixed` and `parseFloat`.**
  - `toFixed` is modelled exactly on real numbers: a sign, a magnitude rounded half-up, and digits.
  - `parseFloat` is modelled on decimal text.
  - Parsing the text of a `toFixed` result gives back its exact value (`JsNumber.ParseRender`).

Modules follow the source files:

| source file | Dafny module |
|---|---|
| `risk.js` | `Risk` |
| `useTelemetry.js` | `Telemetry`, with class `TelemetryLoop` |
| `predictionEngine.js` | `Prediction` |
| `useSensorHistory.js` | `SensorHistory`, with class `SensorHistoryStore` |
| the parse loop of `useMapbox.js` | `MapboxParse` |
| `csvToGeoJSON.js` | `CsvToGeoJson` |
| `MineDetailsDashboard.jsx` | `MineDetails` |
| `csvExport.js` | `CsvExport` |
| the SQLite `server.js` | `Server` |

Shared modules:

- `Mines`: the mine record.
- `CsvTable`: the line and cell helpers.
- `JsString` and `JsNumber`: the JavaScript primitives.
- `Wrappers`: `Option`.

## Model

| member | source | states |
|---|---|---|
| JsString.Split | mapbox-react-app/scripts/csvToGeoJSON.js:31 | `split` on one character gives at least one piece and no piece holds the separator |
| JsString.JoinSplit | mapbox-react-app/scripts/csvToGeoJSON.js:13-14 | joining the pieces of a split with the separator gives back the text |
| JsString.SplitJoin | mapbox-react-app/src/utils/csvExport.js:24-27 | splitting a join of separator-free pieces gives back the pieces |
| JsString.IndexOf | mapbox-react-app/scripts/csvToGeoJSON.js:17-23 | `indexOf` is -1 exactly when the header is absent, else the first position holding it |
| JsString.ToLowerCase | mapbox-react-app/scripts/csvToGeoJSON.js:89 | same length, each character lowered, no capital left |
| JsNumber.Clamp | mapbox-react-app/src/risk.js:19 | `Math.max(lo, Math.min(hi, x))` lies in [lo, hi], is x inside, the bound outside |
| JsNumber.MathRound | mapbox-react-app/src/risk.js:33 | `Math.round` is the integer n with n - 0.5 <= x < n + 0.5 |
| JsNumber.ToFixedClose | mapbox-react-app/src/risk.js:41-43 | `toFixed(p)` is within half a unit of the last place |
| JsNumber.ToFixedWithin | mapbox-react-app/src/risk.js:41-43 | `toFixed` keeps a value inside integer bounds |
| JsNumber.ParseRender | mapbox-react-app/src/risk.js:41-43 | `parseFloat` of a `toFixed` string is the exact decimal value |
| JsNumber.FixedRound | mapbox-react-app/src/risk.js:41-43 | `parseFloat(x.toFixed(p))` is a number, the value the round trip yields |
| Risk.Noise | mapbox-react-app/src/risk.js:12-14 | `(Math.random() - 0.5) * w` lies in [-w/2, w/2) |
| Risk.PhScore | mapbox-react-app/src/risk.js:30 | the pH sub-score is in [0, 100] and 0 for pH >= 7 |
| Risk.LeadScore | mapbox-react-app/src/risk.js:31 | the lead sub-score is in [0, 100] and 100 from 200 ppm |
| Risk.Pm25Score | mapbox-react-app/src/risk.js:32 | the PM2.5 sub-score is in [0, 100] and 100 from 100 µg/m³ |
| Risk.RiskScore | mapbox-react-app/src/risk.js:30-33 | the rounded mean of the sub-scores is an integer in [0, 100] |
| Risk.RiskScoreMonotone | mapbox-react-app/src/risk.js:30-33 | the score never rises with pH and never falls with lead or PM2.5 |
| Risk.NeutralPhAddsNothing | mapbox-react-app/src/risk.js:30 | any pH >= 7 scores as pH 7 does, contributing nothing |
| Risk.ClampingKeepsScore | mapbox-react-app/src/risk.js:19-33 | clamping lead and PM2.5 to their bounds never changes the score, nor does clamping a pH of at least 2 |
| Risk.StatusOf | mapbox-react-app/src/risk.js:35-38 | LOW RISK iff score < 30, MODERATE iff 30 <= score < 60, CRITICAL iff score >= 60 |
| Risk.StatusColorDistinct | mapbox-react-app/src/risk.js:35-38 | colour and label each identify the status (colour is a function of status and back) |
| Risk.InitialReading | mapbox-react-app/src/risk.js:12-27 | the clamped reading lies in [2,10] x [0,300] x [0,200] and within the noise of the trend unless clamped |
| Risk.GenerateSensorData | mapbox-react-app/src/risk.js:6-48 | the offset is the age draw times 400, in [0, 400), and is returned as `initialDaysOffset`; score from the clamped unrounded values; returned values rounded and in bounds; status and colour from the 30/60 ladder |
| Telemetry.NoisyReading | mapbox-react-app/src/hooks/useTelemetry.js:23-40 | trend plus noise within ±0.2, ±4 and ±3, each half-open |
| Telemetry.TickColor | mapbox-react-app/src/hooks/useTelemetry.js:48-51 | >= 75 red, 35..74 orange, else green |
| Telemetry.UpdateMine | mapbox-react-app/src/hooks/useTelemetry.js:19-60 | only ph/lead/pm25/riskScore/color change; score from the unclamped noisy values; stored values rounded then clamped; colour from the 35/75 ladder |
| Telemetry.TickMines | mapbox-react-app/src/hooks/useTelemetry.js:19-61 | same length and order, each mine updated with the same day |
| Telemetry.TickKeepsIdentity | mapbox-react-app/src/hooks/useTelemetry.js:53-60 | id, coordinates, location, county, name, status and offset survive a tick and every mine is in bounds |
| Telemetry.SharedTrend | mapbox-react-app/src/hooks/useTelemetry.js:23-40 | two mines at one tick differ by less than 0.4, 8 and 6 before rounding |
| Telemetry.StaleStatusAfterTick | mapbox-react-app/src/hooks/useTelemetry.js:49-60 | a tick can leave status MODERATE beside a green colour and score 13 |
| Telemetry.TelemetryLoop.constructor | mapbox-react-app/src/hooks/useTelemetry.js:5 | the day counter starts at 0 |
| Telemetry.TelemetryLoop.Tick | mapbox-react-app/src/hooks/useTelemetry.js:6-61 | the counter rises by exactly 1 and every mine is recomputed with the new day; all mines stay in bounds |
| Prediction.Instability | mapbox-react-app/src/components/predictionEngine.js:10 | at least 1 for a score >= 0, 1 at score 0, 3 at score 100 |
| Prediction.InstabilityIncreasing | mapbox-react-app/src/components/predictionEngine.js:10 | a higher score gives a strictly higher instability |
| Prediction.PhChange | mapbox-react-app/src/components/predictionEngine.js:14-15 | the pH change lies in [0.18, 0.22] times the instability |
| Prediction.Pm25Change | mapbox-react-app/src/components/predictionEngine.js:35-37 | the PM2.5 change lies in [4.5, 5.5] times the instability |
| Prediction.PhPredicted | mapbox-react-app/src/components/predictionEngine.js:17-20 | one decimal place, never below zero, and the "0.0" replacement only for a negative value |
| Prediction.PredictStep | mapbox-react-app/src/components/predictionEngine.js:12-40 | a result iff the type is ph, lead or pm25; ↘ with one place for ph, ↗ with none otherwise |
| Prediction.GetUnit | mapbox-react-app/src/components/predictionEngine.js:50-55 | pH, ppm, µg/m³, and "" exactly for any other type |
| Prediction.GetOneYearPrediction | mapbox-react-app/src/components/predictionEngine.js:42-47 | unset fields for an unknown type ("NaN" change, " undefined undefined " text); otherwise the change is \|change\| to one place and the text is space, icon, value, unit |
| Prediction.PhFalls | mapbox-react-app/src/components/predictionEngine.js:12-21 | the predicted pH is never negative and lies below a positive current value |
| Prediction.LeadGrows | mapbox-react-app/src/components/predictionEngine.js:24-30 | predicted lead is within 0.5 of val·(1 + 0.05·instability) |
| Prediction.Pm25Rises | mapbox-react-app/src/components/predictionEngine.js:33-39 | predicted PM2.5 lies between val + 4 and val + 6·instability |
| Prediction.LeadScenario | mapbox-react-app/src/components/predictionEngine.js:24-47 | lead 20 at score 100 predicts "23", change "3.0", text " ↗ 23 ppm" |
| SensorHistory.ReadingOf | mapbox-react-app/src/hooks/useSensorHistory.js:17-22 | the stored reading keeps the time, holds exactly the mine's pH rounded to 2 places and lead and PM2.5 rounded to 1 place (`parseFloat(x.toFixed(n))`), and each is within 0.005 / 0.05 / 0.05 of the mine's value |
| SensorHistory.Pushed | mapbox-react-app/src/hooks/useSensorHistory.js:17-27 | the new reading is last and at most 30 are kept; below capacity the old list is an unchanged prefix; at capacity exactly the oldest is dropped |
| SensorHistory.PushAllKeepsLast | mapbox-react-app/src/hooks/useSensorHistory.js:17-27 | after any number of adds the history is the last 30 readings ever added, in order |
| SensorHistory.SensorHistoryStore.constructor | mapbox-react-app/src/hooks/useSensorHistory.js:4 | the dictionary starts empty |
| SensorHistory.SensorHistoryStore.GetSensorHistory | mapbox-react-app/src/hooks/useSensorHistory.js:30-32 | the stored list, or [] for an unknown mine; never more than 30 |
| SensorHistory.SensorHistoryStore.AddSensorReading | mapbox-react-app/src/hooks/useSensorHistory.js:6-28 | creates the list on first use, pushes and caps it; every other mine untouched |
| SensorHistory.SensorHistoryStore.ClearHistory | mapbox-react-app/src/hooks/useSensorHistory.js:34-36 | only that mine's entry is removed and its history then reads [] |
| CsvTable.Lines | mapbox-react-app/scripts/csvToGeoJSON.js:13 | at least one line, none holding a line break, joined back they are the trimmed text |
| CsvTable.Cell | mapbox-react-app/scripts/csvToGeoJSON.js:43 | `row[i]` is a value iff i is a valid position (index -1 reads undefined) |
| CsvTable.OrDefault | mapbox-react-app/scripts/csvToGeoJSON.js:43-47 | `cell \|\| fallback`: the fallback for a missing or empty cell |
| CsvTable.ParseCell | mapbox-react-app/scripts/csvToGeoJSON.js:32-33 | `parseFloat(undefined)` is NaN, otherwise `parseFloat` of the cell as modelled by `JsNumber.ParseFloat` (exponent text read only up to the `e`, `Infinity` not read; see Left out) |
| CsvTable.PresentFromRows | mapbox-react-app/scripts/csvToGeoJSON.js:35-54 | every collected item comes from a row that produced it |
| CsvTable.EveryPresentKept | mapbox-react-app/scripts/csvToGeoJSON.js:35-54 | every row that produced an item has it collected |
| MapboxParse.HeaderColumns | mapbox-react-app/src/hooks/useMapbox.js:34-39 | column positions are the `indexOf` of each header name |
| MapboxParse.RowMine | mapbox-react-app/src/hooks/useMapbox.js:45-59 | a mine iff lat and lng both parse; id is the line index; [lng, lat]; "Unknown" fallbacks; generated data overrides the CSV status |
| MapboxParse.LineMines | mapbox-react-app/src/hooks/useMapbox.js:44 | one slot per line and the header line never yields a mine |
| MapboxParse.MinesSortedById | mapbox-react-app/src/hooks/useMapbox.js:44-52 | ids are line indices, strictly increasing, each naming the row it came from |
| MapboxParse.ParsedMinesInBounds | mapbox-react-app/src/hooks/useMapbox.js:50-58 | every parsed mine has in-bounds readings and score |
| MapboxParse.NoLatitudeColumnNoMines | mapbox-react-app/src/hooks/useMapbox.js:34-49 | without a Lat_DD column no row yields a mine |
| MapboxParse.FeaturesOf | mapbox-react-app/src/hooks/useMapbox.js:61-70 | as many features as mines, each with the mine as properties and its coordinates as geometry |
| MapboxParse.ParseMines | mapbox-react-app/src/hooks/useMapbox.js:31-72 | the mines are the rows that parse, in order, all in bounds, and the features match them |
| MapboxParse.CollectMines | mapbox-react-app/src/hooks/useMapbox.js:41-72 | the loop pushes exactly the parsed rows into both arrays |
| MapboxParse.ReadRow | mapbox-react-app/src/hooks/useMapbox.js:45-59 | one loop body yields exactly row i of the row-by-row parse |
| CsvToGeoJson.HeaderColumns | mapbox-react-app/scripts/csvToGeoJSON.js:17-23 | column positions are the `indexOf` of each header name |
| CsvToGeoJson.RowFeature | mapbox-react-app/scripts/csvToGeoJSON.js:31-51 | a feature iff lat and lng parse; [lng, lat]; latitude/longitude properties; "Unknown" and "" fallbacks |
| CsvToGeoJson.LineFeatures | mapbox-react-app/scripts/csvToGeoJSON.js:30 | one slot per line and the header line never yields a feature |
| CsvToGeoJson.GroupOf | mapbox-react-app/scripts/csvToGeoJSON.js:57-61 | a group holds only features of its jurisdiction, in input order |
| CsvToGeoJson.KeysOf | mapbox-react-app/scripts/csvToGeoJSON.js:57-60 | every feature's jurisdiction is a key |
| CsvToGeoJson.KeysFromFeatures | mapbox-react-app/scripts/csvToGeoJSON.js:57-60 | every key comes from some feature |
| CsvToGeoJson.KeysDistinct | mapbox-react-app/scripts/csvToGeoJSON.js:58-59 | each key is created once |
| CsvToGeoJson.GroupsPartition | mapbox-react-app/scripts/csvToGeoJSON.js:54-61 | group sizes sum to the number of features: each feature is in exactly one group |
| CsvToGeoJson.GroupOfAppend | mapbox-react-app/scripts/csvToGeoJSON.js:61 | a push extends only the feature's own group |
| CsvToGeoJson.DashRuns | mapbox-react-app/scripts/csvToGeoJSON.js:89 | `replace(/\s+/g, '-')` leaves no white space and is the identity on text without any |
| CsvToGeoJson.DashRunsSplit | mapbox-react-app/scripts/csvToGeoJSON.js:89 | text before a maximal run of white space is kept and the whole run becomes exactly one dash; with the identity above this fixes the result on every input |
| CsvToGeoJson.FilenameCollision | mapbox-react-app/scripts/csvToGeoJSON.js:89-93 | a jurisdiction whose lower-cased text has a white-space run where another has a single dash gets the same file name, so both groups are written to one file |
| CsvToGeoJson.KernCountyOneFile | mapbox-react-app/scripts/csvToGeoJSON.js:89-93 | "Kern County" and "kern-county" share one file name |
| CsvToGeoJson.GroupFilename | mapbox-react-app/scripts/csvToGeoJSON.js:89 | the name is "mines-" + the lower-cased jurisdiction with each white-space run replaced by one dash + ".geojson", and holds no white space and no capitals |
| CsvToGeoJson.GroupFiles | mapbox-react-app/scripts/csvToGeoJSON.js:83-95 | one write per key with that key's file name and group |
| CsvToGeoJson.WritesPartition | mapbox-react-app/scripts/csvToGeoJSON.js:72-95 | all-mines.geojson first with every feature, then one write per jurisdiction holding only its features, group sizes summing to the total (writes whose file names coincide land in one file; see Left out) |
| CsvToGeoJson.GroupLines | mapbox-react-app/scripts/csvToGeoJSON.js:30-63 | the loop fails iff a jurisdiction is an inherited object name; otherwise all features in input order, keys in first-appearance order, each key's group equal to `GroupOf` |
| CsvToGeoJson.AddToGroup | mapbox-react-app/scripts/csvToGeoJSON.js:57-61 | create the key on first use, then push: the groups of the longer list |
| CsvToGeoJson.ReadFeature | mapbox-react-app/scripts/csvToGeoJSON.js:31-51 | one loop body yields exactly row i of the row-by-row parse |
| CsvToGeoJson.WriteFiles | mapbox-react-app/scripts/csvToGeoJSON.js:72-95 | the writes are the all-mines file and then the per-jurisdiction files |
| CsvToGeoJson.ConvertCsv | mapbox-react-app/scripts/csvToGeoJSON.js:13-95 | nothing is written iff some jurisdiction is an inherited object name; otherwise exactly `Writes` of the parsed features (a `/` in a name is not modelled; see Left out) |
| CsvToGeoJson.ConstructorJurisdictionCrashes | mapbox-react-app/scripts/csvToGeoJSON.js:58-61 | a one-row file with jurisdiction "constructor" makes the script fail |
| MineDetails.PhLevel | mapbox-react-app/src/components/MineDetailsDashboard.jsx:96-98 | Hazardous iff pH < 5.0, Warning iff 5.0 <= pH < 6.8, Safe otherwise |
| MineDetails.LeadLevel | mapbox-react-app/src/components/MineDetailsDashboard.jsx:117-119 | Hazardous iff lead > 70, Warning iff 40 < lead <= 70, Safe otherwise |
| MineDetails.Pm25Level | mapbox-react-app/src/components/MineDetailsDashboard.jsx:138-140 | Hazardous iff PM2.5 > 80, Warning iff 20 < PM2.5 <= 80, Safe otherwise |
| MineDetails.LevelsMonotone | mapbox-react-app/src/components/MineDetailsDashboard.jsx:96-140 | lower pH, more lead or more dust never gives a better verdict |
| MineDetails.LevelShownOnce | mapbox-react-app/src/components/MineDetailsDashboard.jsx:96-98 | label and colour each identify the verdict |
| MineDetails.LevelBoundaries | mapbox-react-app/src/components/MineDetailsDashboard.jsx:117-140 | lead exactly 70 is Warning, PM2.5 exactly 20 is Safe, pH exactly 5.0 is Warning |
| MineDetails.FindIndex | mapbox-react-app/src/components/MineDetailsDashboard.jsx:15 | the first mine with that id, or -1 exactly when none has it |
| MineDetails.CurrentMine | mapbox-react-app/src/components/MineDetailsDashboard.jsx:15 | the first live mine with the popup's id (`find`) when one exists, else the popup's own properties |
| MineDetails.MineHistory | mapbox-react-app/src/components/MineDetailsDashboard.jsx:17 | `telemetryHistory[id] \|\| []` |
| MineDetails.Details | mapbox-react-app/src/components/MineDetailsDashboard.jsx:12-40 | no panel iff no popup; otherwise the live record `CurrentMine` picks, its history, "Unknown Mine" for an empty name, and the three verdicts |
| MineDetails.SameIdsSameIndex | mapbox-react-app/src/components/MineDetailsDashboard.jsx:15 | lists with the same ids find the same position |
| MineDetails.PanelFollowsTick | mapbox-react-app/src/components/MineDetailsDashboard.jsx:15 | after a tick the panel shows the ticked version of the selected mine |
| CsvExport.NumberField | mapbox-react-app/src/utils/csvExport.js:18-20 | `x \|\| ''`: zero exports as an empty field |
| CsvExport.RowFields | mapbox-react-app/src/utils/csvExport.js:16-21 | four fields: time, pH, lead, PM2.5 |
| CsvExport.RowLines | mapbox-react-app/src/utils/csvExport.js:16-26 | one line per reading, in input order |
| CsvExport.CsvContent | mapbox-react-app/src/utils/csvExport.js:7-27 | no content iff the history is null or empty; otherwise header and rows joined by line breaks |
| CsvExport.ContentLines | mapbox-react-app/src/utils/csvExport.js:24-27 | the content splits back into the header and the rows: n + 1 lines, no trailing break |
| CsvExport.RowFieldsRoundTrip | mapbox-react-app/src/utils/csvExport.js:26 | comma-free fields split back out of their line |
| CsvExport.SanitizeName | mapbox-react-app/src/utils/csvExport.js:34 | same length, only [a-z0-9_], "_" exactly where the character is not an ASCII letter or digit |
| CsvExport.SanitizeIdempotent | mapbox-react-app/src/utils/csvExport.js:34 | sanitising twice is sanitising once |
| CsvExport.ExportFilename | mapbox-react-app/src/utils/csvExport.js:34-36 | sanitised name + "_sensor_data_" + date + ".csv" |
| CsvExport.ExportFilenameDate | mapbox-react-app/src/utils/csvExport.js:35 | the date part is the timestamp up to its first "T" |
| CsvExport.Export | mapbox-react-app/src/utils/csvExport.js:6-36 | no download iff no readings; otherwise that file name and content |
| Server.ValidateReading | mapbox-react-app/server.js:88-95 | 400 "Missing required fields" iff mine_id is falsy or a reading is undefined; otherwise the four insert parameters |
| Server.ZeroHandling | mapbox-react-app/server.js:88 | zero and null readings pass, a zero mine_id does not |
| Server.CompositePasses | mapbox-react-app/server.js:88-95 | an array or object mine_id is truthy: the reading is accepted with it as the first insert parameter, and the export filters on it with it as the first query parameter |
| Server.HistoryParams | mapbox-react-app/server.js:105-113 | [mine_id, limit or 100, offset or 0] |
| Server.ReverseChronological | mapbox-react-app/server.js:111-116 | rows fetched newest-first are returned oldest-first, the same rows |
| Server.BuildFilterQuery | mapbox-react-app/server.js:125-148 | base query, WHERE clause from the present filters, ORDER BY newest first; parameters in filter order; as many "?" as parameters |
| Server.PlaceholdersMatch | mapbox-react-app/server.js:129-148 | one parameter per condition; WHERE only when a condition exists; "?" count equals conditions |
| Server.WhereCount | mapbox-react-app/server.js:144-146 | the joined clause has one "?" per condition |
| Server.FilterPlaceholders | mapbox-react-app/server.js:129-142 | each condition holds exactly one "?" |
| Server.FixedTextsHaveNoPlaceholder | mapbox-react-app/server.js:125-148 | the base query and ORDER BY text hold no "?" |
| Server.ExportCsv | mapbox-react-app/server.js:182-185 | the header then each row's line, in row order |
| Server.ExportLineCount | mapbox-react-app/server.js:182-185 | n rows without line breaks give exactly n + 1 line breaks, each line terminated |

## Left out

- Map rendering, layers, clustering, popups and animation; the React components and their markup; the theme hook. These are user interface over external libraries.
- Fetching, the file system (`readFileSync`, `mkdirSync`, `writeFileSync`), SQL execution, route registration and the Blob/link download. The model returns what would be written or sent (`FileWrite`, `Download`, query and parameters).
- The MongoDB server and the telemetry database fetch wrappers. They are plumbing over external services.
- Logging and `alert`: they are side effects with no result.
- `setInterval` timing, React state setters and hook lifecycles. A tick is one call of `TelemetryLoop.Tick`.
- Dates and times: `toLocaleTimeString`, `toLocaleDateString` and `toISOString`. They come in as string parameters.
- `Math.random`: each draw is a parameter in [0, 1). In `MapboxParse`, the draws for a row are indexed by its line number.
- `Math.exp` and `Math.log`: the trend curves are the `curves` parameter, so nothing is proved about their shape.
- JsNumber.ToFixed: models `toFixed` on the exact real value, so a binary floating-point value just below a tie can round differently than in the model.
- JsNumber.ParseFloat: does not read exponents or `Infinity`. Exponent text is read only up to the `e`: a CSV cell `1e2` (mapbox-react-app/src/hooks/useMapbox.js:46-47, mapbox-react-app/scripts/csvToGeoJSON.js:32-33) gives 1 in the model where JavaScript gives 100, so the row is kept with a different coordinate. A cell `Infinity` gives `None` here, so the row is dropped, where JavaScript keeps it with an infinite coordinate. The same forms arise in the core itself: after long runs the lead trend at mapbox-react-app/src/hooks/useTelemetry.js:34 passes 1e21, so `toFixed(1)` writes exponent text and later `Infinity`; the clamp to 300 at mapbox-react-app/src/hooks/useTelemetry.js:56 makes the stored reading the same either way, and the model's `toFixed` and `parseFloat` keep the exact value throughout.
- CsvTable.ParseCell: inherits the two gaps of `JsNumber.ParseFloat` above: a `1e2` cell is read as 1, and an `Infinity` cell as not a number.
- NaN is left out as a value. A parse that fails is `None`, and the `JsValue` truthiness leaves NaN out.
- Number-to-string conversion of an arbitrary number is the `show` parameter. It is used for CSV fields and template literals.
- JsString.ToLowerCase: lowers the Latin-1 capitals only, not the rest of Unicode.
- CsvExport.SanitizeName: works on code points. A character outside the Basic Multilingual Plane becomes two underscores in JavaScript, one UTF-16 unit each, but one here.
- CsvToGeoJson.WriteFiles: writes the groups in first-appearance order. `Object.entries` lists integer-like jurisdiction names first, in ascending order.
- CsvToGeoJson.WritesPartition: promises one write per jurisdiction, not one file. Any two jurisdictions with equal `GroupFilename` share a file, and the later write replaces the earlier one: names that differ in case, a white-space run against a dash (`FilenameCollision`, `KernCountyOneFile`), or runs of different white space. The model keeps both writes in order, so the file on disk holds the group written last.
- CsvToGeoJson.ConvertCsv: file names are plain strings. A jurisdiction containing `/` makes `path.join` (mapbox-react-app/scripts/csvToGeoJSON.js:91) point into a subdirectory; when that does not exist, `writeFileSync` throws and the remaining files are never written, whereas the model still reports the full list of writes.
- Prediction.GetOneYearPrediction: requires a risk score >= 0, which every score from `RiskScore` is. It also takes the current value as a number, whereas the source passes it through `parseFloat`.
- The popup's coordinate display (`toFixed(4)`) and the chart of the history in the details panel are markup.
- `sensor_visualization.py` is not part of this model; it is plotting.

## Findings

| source | as written | input that shows it | evidently intended | confidence | as-written member | corrected member |
|---|---|---|---|---|---|---|
| mapbox-react-app/scripts/csvToGeoJSON.js:58-61 | groups live in a plain object `{}`, so a jurisdiction spelled like an inherited property (`constructor`, `toString`, `__proto__`, …) finds a truthy value that is not an array, `push` throws a TypeError and no file is written | `Lat_DD,Long_DD,Jurisdiction` / `1,2,constructor` | every jurisdiction gets its own group and file, as with any other name | not executed | CsvToGeoJson.ConstructorJurisdictionCrashes | CsvToGeoJson.WritesPartition |
