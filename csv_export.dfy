/** `exportSensorDataToCSV`: the CSV text and the file name of a mine's
    sensor history download. The Blob and the hidden link that start the
    download are not modelled. */
module CsvExport {
  import opened Wrappers
  import opened JsString
  import opened SensorHistory

  /** The header fields, joined with commas into the first line. */
  const HeaderFields: seq<string> := ["Timestamp", "pH Level", "Lead (ppm)", "PM2.5 (µg/m³)"]

  /** `value || ''` on a number: zero is falsy and exports as an empty
      field; any other number is written with `show`, the number-to-string
      conversion. */
  function NumberField(x: real, show: real -> string): (f: string)
    ensures x == 0.0 ==> f == ""
    ensures x != 0.0 ==> f == show(x)
  {
    if x == 0.0 then "" else show(x)
  }

  /** The four fields of one reading; `time || ''` is the time itself. */
  function RowFields(r: Reading, show: real -> string): (fields: seq<string>)
    ensures |fields| == 4 && fields[0] == r.time
    ensures fields[1] == NumberField(r.ph, show) && fields[2] == NumberField(r.lead, show)
    ensures fields[3] == NumberField(r.pm25, show)
  {
    [r.time, NumberField(r.ph, show), NumberField(r.lead, show), NumberField(r.pm25, show)]
  }

  function RowLines(history: seq<Reading>, show: real -> string): (lines: seq<string>)
    ensures |lines| == |history|
    ensures forall k :: 0 <= k < |history| ==> lines[k] == Join(RowFields(history[k], show), ",")
  {
    seq(|history|, k requires 0 <= k < |history| => Join(RowFields(history[k], show), ","))
  }

  /** The CSV text, or None for a missing or empty history (the source
      alerts and returns). */
  function CsvContent(history: Option<seq<Reading>>, show: real -> string): (content: Option<string>)
    ensures content.None? <==> history.None? || |history.value| == 0
    ensures content.Some? ==> content.value == Join([Join(HeaderFields, ",")] + RowLines(history.value, show), "\n")
  {
    if history.None? || |history.value| == 0 then None
    else Some(Join([Join(HeaderFields, ",")] + RowLines(history.value, show), "\n"))
  }

  /** No field of the reading holds `c`. */
  predicate FieldsFree(r: Reading, show: real -> string, c: char) {
    forall k :: 0 <= k < 4 ==> c !in RowFields(r, show)[k]
  }

  /** When no time and no printed number holds a line break, the content
      splits back into the header line and one line per reading, in input
      order, and each line splits into its fields when none holds a
      comma. */
  lemma ContentLines(history: seq<Reading>, show: real -> string)
    requires |history| > 0
    requires forall k :: 0 <= k < |history| ==> FieldsFree(history[k], show, '\n')
    ensures var lines := [Join(HeaderFields, ",")] + RowLines(history, show);
      && Split(CsvContent(Some(history), show).value, '\n') == lines
      && |lines| == |history| + 1
  {
    var lines := [Join(HeaderFields, ",")] + RowLines(history, show);
    JoinFree(HeaderFields, ',', '\n');
    forall k | 0 <= k < |lines| ensures '\n' !in lines[k] {
      if k > 0 {
        JoinFree(RowFields(history[k - 1], show), ',', '\n');
      }
    }
    SplitJoin(lines, '\n');
  }

  /** Every row line splits back into its four fields. */
  lemma RowFieldsRoundTrip(r: Reading, show: real -> string)
    requires FieldsFree(r, show, ',')
    ensures Split(Join(RowFields(r, show), ","), ',') == RowFields(r, show)
  {
    SplitJoin(RowFields(r, show), ',');
  }

  predicate IsAsciiAlnum(c: char) {
    IsAsciiUpper(c) || IsAsciiLower(c) || IsAsciiDigit(c)
  }

  /** `name.replace(/[^a-z0-9]/gi, '_').toLowerCase()`. */
  function SanitizeName(name: string): (r: string)
    ensures |r| == |name|
    ensures forall i :: 0 <= i < |r| ==> IsAsciiLower(r[i]) || IsAsciiDigit(r[i]) || r[i] == '_'
    ensures forall i :: 0 <= i < |r| ==> (r[i] == '_' <==> !IsAsciiAlnum(name[i]))
    ensures forall i :: 0 <= i < |r| && IsAsciiAlnum(name[i]) ==> r[i] == LowerChar(name[i])
  {
    ToLowerCase(seq(|name|, i requires 0 <= i < |name| => if IsAsciiAlnum(name[i]) then name[i] else '_'))
  }

  /** Sanitising a sanitised name changes nothing. */
  lemma SanitizeIdempotent(name: string)
    ensures SanitizeName(SanitizeName(name)) == SanitizeName(name)
  {
    var r := SanitizeName(name);
    forall i | 0 <= i < |r| ensures SanitizeName(r)[i] == r[i] {
      if IsAsciiAlnum(r[i]) {
        assert !IsUpper(r[i]);
      }
    }
  }

  /** `<name>_sensor_data_<date>.csv`, the date being the part of the ISO
      timestamp before its `T`. */
  function ExportFilename(name: string, isoTimestamp: string): (filename: string)
    ensures |filename| == |name| + |Split(isoTimestamp, 'T')[0]| + 17
    ensures filename[..|name|] == SanitizeName(name)
    ensures filename[|name|..|name| + 13] == "_sensor_data_"
    ensures filename[|filename| - 4..] == ".csv"
  {
    SanitizeName(name) + "_sensor_data_" + Split(isoTimestamp, 'T')[0] + ".csv"
  }

  /** The date in the file name is the ISO timestamp up to its `T`:
      `2024-05-01T10:00:00.000Z` gives `2024-05-01`. */
  lemma ExportFilenameDate(name: string, isoTimestamp: string)
    ensures var date := ExportFilename(name, isoTimestamp)[|name| + 13..|ExportFilename(name, isoTimestamp)| - 4];
      && |date| <= |isoTimestamp| && date == isoTimestamp[..|date|] && 'T' !in date
      && (|date| < |isoTimestamp| ==> isoTimestamp[|date|] == 'T')
  {
    SplitFirst(isoTimestamp, 'T');
    var date := Split(isoTimestamp, 'T')[0];
    assert ExportFilename(name, isoTimestamp)[|name| + 13..|ExportFilename(name, isoTimestamp)| - 4] == date;
  }

  /** A download: file name and CSV text. */
  datatype Download = Download(filename: string, content: string)

  /** The whole export: nothing for a missing or empty history, otherwise
      the file name and content above. */
  function Export(history: Option<seq<Reading>>, mineName: string, isoTimestamp: string, show: real -> string): (d: Option<Download>)
    ensures d.None? <==> history.None? || |history.value| == 0
    ensures d.Some? ==> d.value == Download(ExportFilename(mineName, isoTimestamp), CsvContent(history, show).value)
  {
    match CsvContent(history, show)
    case None => None
    case Some(content) => Some(Download(ExportFilename(mineName, isoTimestamp), content))
  }
}
