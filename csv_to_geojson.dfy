/** The build script `csvToGeoJSON.js`: reads the mine CSV into GeoJSON
    point features, one collection with every mine and one per
    jurisdiction, each written to its own file. */
module CsvToGeoJson {
  import opened Wrappers
  import opened JsString
  import opened JsNumber
  import opened CsvTable

  /** The header positions looked up with `indexOf` (-1 when absent). */
  datatype GeoColumns = GeoColumns(lat: int, lng: int, name: int, jurisdiction: int, status: int, commodity: int, mineType: int)

  datatype GeoProperties = GeoProperties(
    name: string, jurisdiction: string, status: string, commodity: string, mineType: string,
    latitude: real, longitude: real)

  /** A point feature: its `[lng, lat]` geometry and its properties. */
  datatype GeoFeature = GeoFeature(coordinates: seq<real>, properties: GeoProperties)

  function HeaderColumns(headers: seq<string>): (cols: GeoColumns)
    ensures cols.lat == IndexOf(headers, "Lat_DD") && cols.lng == IndexOf(headers, "Long_DD")
    ensures cols.name == IndexOf(headers, "Name") && cols.jurisdiction == IndexOf(headers, "Jurisdiction")
    ensures cols.status == IndexOf(headers, "Status") && cols.commodity == IndexOf(headers, "Commodity_Code")
    ensures cols.mineType == IndexOf(headers, "Mine_Type")
  {
    GeoColumns(IndexOf(headers, "Lat_DD"), IndexOf(headers, "Long_DD"), IndexOf(headers, "Name"),
               IndexOf(headers, "Jurisdiction"), IndexOf(headers, "Status"),
               IndexOf(headers, "Commodity_Code"), IndexOf(headers, "Mine_Type"))
  }

  /** The feature of one data line, or None when its latitude or longitude
      is NaN. Name, jurisdiction and status fall back to "Unknown", the
      commodity and mine type to the empty string. */
  function RowFeature(line: string, cols: GeoColumns): (r: Option<GeoFeature>)
    ensures var row := Split(line, ',');
      var lat, lng := ParseCell(Cell(row, cols.lat)), ParseCell(Cell(row, cols.lng));
      && (r.Some? <==> lat.Some? && lng.Some?)
      && (r.Some? ==>
        && r.value.coordinates == [lng.value, lat.value]
        && r.value.properties.latitude == lat.value && r.value.properties.longitude == lng.value
        && r.value.properties.name == OrDefault(Cell(row, cols.name), "Unknown")
        && r.value.properties.jurisdiction == OrDefault(Cell(row, cols.jurisdiction), "Unknown")
        && r.value.properties.status == OrDefault(Cell(row, cols.status), "Unknown")
        && r.value.properties.commodity == OrDefault(Cell(row, cols.commodity), "")
        && r.value.properties.mineType == OrDefault(Cell(row, cols.mineType), ""))
  {
    var row := Split(line, ',');
    var lat := ParseCell(Cell(row, cols.lat));
    var lng := ParseCell(Cell(row, cols.lng));
    if lat.Some? && lng.Some? then
      Some(GeoFeature([lng.value, lat.value], GeoProperties(
        OrDefault(Cell(row, cols.name), "Unknown"),
        OrDefault(Cell(row, cols.jurisdiction), "Unknown"),
        OrDefault(Cell(row, cols.status), "Unknown"),
        OrDefault(Cell(row, cols.commodity), ""),
        OrDefault(Cell(row, cols.mineType), ""),
        lat.value, lng.value)))
    else
      None
  }

  /** What line `i` gives; the header line 0 gives nothing. */
  function LineFeature(lines: seq<string>, i: nat, cols: GeoColumns): (r: Option<GeoFeature>)
    requires i < |lines|
  {
    if i == 0 then None else RowFeature(lines[i], cols)
  }

  /** What each of the first `n` lines gives, in order. */
  function LineFeatures(lines: seq<string>, n: nat, cols: GeoColumns): (rows: seq<Option<GeoFeature>>)
    requires n <= |lines|
    ensures |rows| == n
    ensures n > 0 ==> rows[0] == None
  {
    if n == 0 then [] else LineFeatures(lines, n - 1, cols) + [LineFeature(lines, n - 1, cols)]
  }

  lemma {:induction false} LineFeaturesAt(lines: seq<string>, n: nat, cols: GeoColumns, i: nat)
    requires n <= |lines| && i < n
    ensures LineFeatures(lines, n, cols)[i] == LineFeature(lines, i, cols)
  {
    var prev := LineFeatures(lines, n - 1, cols);
    assert LineFeatures(lines, n, cols) == prev + [LineFeature(lines, n - 1, cols)];
    if i < n - 1 {
      LineFeaturesAt(lines, n - 1, cols, i);
    }
  }

  /** The features of jurisdiction `key`, in order. */
  function GroupOf(fs: seq<GeoFeature>, key: string): (g: seq<GeoFeature>)
    ensures |g| <= |fs|
    ensures forall k :: 0 <= k < |g| ==> g[k].properties.jurisdiction == key
  {
    if |fs| == 0 then []
    else
      var f := fs[|fs| - 1];
      GroupOf(fs[..|fs| - 1], key) + (if f.properties.jurisdiction == key then [f] else [])
  }

  /** The jurisdictions in order of first appearance. */
  function KeysOf(fs: seq<GeoFeature>): (keys: seq<string>)
    ensures forall j :: 0 <= j < |fs| ==> fs[j].properties.jurisdiction in keys
  {
    if |fs| == 0 then []
    else
      var ks := KeysOf(fs[..|fs| - 1]);
      var key := fs[|fs| - 1].properties.jurisdiction;
      assert forall j :: 0 <= j < |fs| - 1 ==> fs[..|fs| - 1][j] == fs[j];
      if key in ks then ks else ks + [key]
  }

  /** Every listed jurisdiction is some feature's. */
  lemma {:induction false} KeysFromFeatures(fs: seq<GeoFeature>, key: string)
    requires key in KeysOf(fs)
    ensures exists j :: 0 <= j < |fs| && fs[j].properties.jurisdiction == key
  {
    var init := fs[..|fs| - 1];
    if key in KeysOf(init) {
      KeysFromFeatures(init, key);
      var j :| 0 <= j < |init| && init[j].properties.jurisdiction == key;
      assert fs[j] == init[j];
    }
  }

  /** No jurisdiction is listed twice. */
  lemma {:induction false} KeysDistinct(fs: seq<GeoFeature>)
    ensures forall j, k :: 0 <= j < k < |KeysOf(fs)| ==> KeysOf(fs)[j] != KeysOf(fs)[k]
  {
    if |fs| > 0 {
      KeysDistinct(fs[..|fs| - 1]);
    }
  }

  /** The groups partition the features: every feature is in exactly the
      group of its jurisdiction, and the group sizes add up to the total. */
  lemma {:induction false} GroupsPartition(fs: seq<GeoFeature>)
    ensures SumSizes(fs, KeysOf(fs)) == |fs|
    decreases |fs|
  {
    if |fs| > 0 {
      var init := fs[..|fs| - 1];
      var f := fs[|fs| - 1];
      var key := f.properties.jurisdiction;
      var keys := KeysOf(init);
      assert fs == init + [f];
      GroupsPartition(init);
      KeysDistinct(init);
      SumSizesStep(init, f, keys);
      if key !in keys {
        assert KeysOf(fs) == keys + [key];
        SumSizesAppend(fs, keys, key);
        GroupOfAbsent(init, key);
        assert GroupOf(fs, key) == [f];
      } else {
        assert KeysOf(fs) == keys;
      }
    }
  }

  /** The total size of the groups of `keys`. */
  function SumSizes(fs: seq<GeoFeature>, keys: seq<string>): nat
  {
    if |keys| == 0 then 0 else SumSizes(fs, keys[..|keys| - 1]) + |GroupOf(fs, keys[|keys| - 1])|
  }

  lemma {:induction false} SumSizesAppend(fs: seq<GeoFeature>, keys: seq<string>, key: string)
    ensures SumSizes(fs, keys + [key]) == SumSizes(fs, keys) + |GroupOf(fs, key)|
  {
    assert (keys + [key])[..|keys|] == keys;
  }

  /** Adding a feature adds one to its own group's size and nothing to the
      others. */
  lemma {:induction false} SumSizesStep(init: seq<GeoFeature>, f: GeoFeature, keys: seq<string>)
    requires forall j, k :: 0 <= j < k < |keys| ==> keys[j] != keys[k]
    ensures SumSizes(init + [f], keys) == SumSizes(init, keys) + (if f.properties.jurisdiction in keys then 1 else 0)
    decreases |keys|
  {
    assert (init + [f])[..|init|] == init;
    if |keys| > 0 {
      SumSizesStep(init, f, keys[..|keys| - 1]);
    }
  }

  /** A jurisdiction no feature has has an empty group. */
  lemma {:induction false} GroupOfAbsent(fs: seq<GeoFeature>, key: string)
    requires forall j :: 0 <= j < |fs| ==> fs[j].properties.jurisdiction != key
    ensures GroupOf(fs, key) == []
  {
    if |fs| > 0 {
      GroupOfAbsent(fs[..|fs| - 1], key);
    }
  }

  /** Adding a feature extends its own group by it and leaves the others. */
  lemma GroupOfAppend(fs: seq<GeoFeature>, f: GeoFeature, key: string)
    ensures GroupOf(fs + [f], key) == GroupOf(fs, key) + (if f.properties.jurisdiction == key then [f] else [])
  {
    assert (fs + [f])[..|fs|] == fs;
  }

  /** Adding a feature lists its jurisdiction after the others unless it
      is listed already. */
  lemma KeysOfAppend(fs: seq<GeoFeature>, f: GeoFeature)
    ensures KeysOf(fs + [f]) == (if f.properties.jurisdiction in KeysOf(fs) then KeysOf(fs) else KeysOf(fs) + [f.properties.jurisdiction])
  {
    assert (fs + [f])[..|fs|] == fs;
  }

  /** The names a plain object literal inherits from `Object.prototype`.
      Looking one of them up on `{}` gives a function or an object, which
      is truthy and has no `push`. */
  const InheritedKeys: set<string> := {
    "constructor", "__proto__", "toString", "toLocaleString", "valueOf", "hasOwnProperty",
    "isPrototypeOf", "propertyIsEnumerable", "__defineGetter__", "__defineSetter__",
    "__lookupGetter__", "__lookupSetter__"}

  /** Some feature's jurisdiction is one of the inherited names. */
  predicate Crashes(fs: seq<GeoFeature>) {
    exists k :: 0 <= k < |fs| && fs[k].properties.jurisdiction in InheritedKeys
  }

  lemma CrashesAppend(fs: seq<GeoFeature>, f: GeoFeature)
    ensures Crashes(fs + [f]) <==> Crashes(fs) || f.properties.jurisdiction in InheritedKeys
  {
    if Crashes(fs) {
      var k :| 0 <= k < |fs| && fs[k].properties.jurisdiction in InheritedKeys;
      assert (fs + [f])[k] == fs[k];
    }
    if f.properties.jurisdiction in InheritedKeys {
      assert (fs + [f])[|fs|] == f;
    }
    if Crashes(fs + [f]) {
      var k :| 0 <= k < |fs + [f]| && (fs + [f])[k].properties.jurisdiction in InheritedKeys;
      if k < |fs| {
        assert (fs + [f])[k] == fs[k];
      }
    }
  }

  lemma MemberCrashes(fs: seq<GeoFeature>, f: GeoFeature)
    requires f in fs && f.properties.jurisdiction in InheritedKeys
    ensures Crashes(fs)
  {
    var k :| 0 <= k < |fs| && fs[k] == f;
  }

  /** The features the script collects from the text of the CSV file. */
  function Converted(csvText: string): (all: seq<GeoFeature>)
  {
    var lines := Lines(csvText);
    var rows := LineFeatures(lines, |lines|, HeaderColumns(Split(lines[0], ',')));
    Present(rows, |rows|)
  }

  /** One `fs.writeFileSync`: the file name and the collection written. */
  datatype FileWrite = FileWrite(filename: string, features: seq<GeoFeature>)

  /** `s.replace(/\s+/g, '-')`: every maximal run of white space becomes a
      single dash. */
  function DashRuns(s: string): (r: string)
    ensures |r| <= |s|
    ensures forall k :: 0 <= k < |r| ==> !IsJsWhitespace(r[k])
    ensures (forall k :: 0 <= k < |s| ==> !IsJsWhitespace(s[k])) ==> r == s
    ensures forall k :: 0 <= k < |r| ==> r[k] == '-' || r[k] in s
    decreases |s|
  {
    if |s| == 0 then ""
    else if IsJsWhitespace(s[0]) then
      "-" + DashRuns(TrimStart(s))
    else [s[0]] + DashRuns(s[1..])
  }

  /** Text without white space is kept, and the maximal run of white space
      after it becomes one dash; with the identity on white-space-free text
      this fixes `DashRuns` on every input. */
  lemma {:induction false} DashRunsSplit(a: string, w: string, b: string)
    requires forall k :: 0 <= k < |a| ==> !IsJsWhitespace(a[k])
    requires |w| > 0 && forall k :: 0 <= k < |w| ==> IsJsWhitespace(w[k])
    requires b == [] || !IsJsWhitespace(b[0])
    ensures DashRuns(a + w + b) == a + "-" + DashRuns(b)
    decreases |a|
  {
    if |a| == 0 {
      assert a + w + b == w + b;
      DashRunsRun(w, b);
    } else {
      var t, rest := a[1..] + w + b, DashRuns(b);
      assert DashRuns(t) == a[1..] + "-" + rest by {
        DashRunsSplit(a[1..], w, b);
      }
      assert DashRuns([a[0]] + t) == [a[0]] + DashRuns(t) by {
        DashRunsKeep(a[0], t);
      }
      FirstApart(a, w, b);
      FirstApart(a, "-", rest);
    }
  }

  lemma FirstApart(a: string, w: string, b: string)
    requires |a| > 0
    ensures a + w + b == [a[0]] + (a[1..] + w + b)
  {
    assert a == [a[0]] + a[1..];
  }

  lemma DashRunsRun(w: string, b: string)
    requires |w| > 0 && forall k :: 0 <= k < |w| ==> IsJsWhitespace(w[k])
    requires b == [] || !IsJsWhitespace(b[0])
    ensures DashRuns(w + b) == "-" + DashRuns(b)
  {
    assert (w + b)[0] == w[0];
    TrimStartRun(w, b);
  }

  lemma DashRunsKeep(c: char, t: string)
    requires !IsJsWhitespace(c)
    ensures DashRuns([c] + t) == [c] + DashRuns(t)
  {
    assert ([c] + t)[1..] == t;
  }

  /** Text without white space stays in front of whatever follows it. */
  lemma {:induction false} DashRunsPrefix(a: string, b: string)
    requires forall k :: 0 <= k < |a| ==> !IsJsWhitespace(a[k])
    ensures DashRuns(a + b) == a + DashRuns(b)
    decreases |a|
  {
    if |a| == 0 {
      assert a + b == b;
    } else {
      assert DashRuns(a[1..] + b) == a[1..] + DashRuns(b) by {
        DashRunsPrefix(a[1..], b);
      }
      assert DashRuns([a[0]] + (a[1..] + b)) == [a[0]] + DashRuns(a[1..] + b) by {
        DashRunsKeep(a[0], a[1..] + b);
      }
      HeadApart(a, b);
      HeadApart(a, DashRuns(b));
    }
  }

  lemma HeadApart(a: string, b: string)
    requires |a| > 0
    ensures a + b == [a[0]] + (a[1..] + b)
  {
    assert a == [a[0]] + a[1..];
  }

  /** A run of white space and a single dash give the same file name, so
      two different jurisdictions can share one file. */
  lemma FilenameCollision(j1: string, j2: string, a: string, w: string, b: string)
    requires forall k :: 0 <= k < |a| ==> !IsJsWhitespace(a[k])
    requires |w| > 0 && forall k :: 0 <= k < |w| ==> IsJsWhitespace(w[k])
    requires b == [] || !IsJsWhitespace(b[0])
    requires ToLowerCase(j1) == a + w + b && ToLowerCase(j2) == a + "-" + b
    ensures GroupFilename(j1) == GroupFilename(j2)
  {
    DashRunsSplit(a, w, b);
    DashRunsPrefix(a + "-", b);
    assert a + "-" + b == (a + "-") + b;
  }

  /** "Kern County" and "kern-county" are written to the same file. */
  lemma KernCountyOneFile()
    ensures GroupFilename("Kern County") == GroupFilename("kern-county")
  {
    var a, b := "kern", "county";
    assert ToLowerCase("Kern County") == a + " " + b;
    assert ToLowerCase("kern-county") == a + "-" + b;
    FilenameCollision("Kern County", "kern-county", a, " ", b);
  }

  /** The file of one jurisdiction:
      `mines-<lower-cased name, blanks as dashes>.geojson`. */
  function GroupFilename(jurisdiction: string): (filename: string)
    ensures filename == "mines-" + DashRuns(ToLowerCase(jurisdiction)) + ".geojson"
    ensures |filename| >= 14
    ensures filename[..6] == "mines-" && filename[|filename| - 8..] == ".geojson"
    ensures forall k :: 0 <= k < |filename| ==> !IsJsWhitespace(filename[k]) && !IsUpper(filename[k])
  {
    var name := DashRuns(ToLowerCase(jurisdiction));
    LowerDashesPlain(jurisdiction);
    FilenameParts(name);
    "mines-" + name + ".geojson"
  }

  /** No white space and no capital letter. */
  predicate Plain(s: string) {
    forall k :: 0 <= k < |s| ==> !IsJsWhitespace(s[k]) && !IsUpper(s[k])
  }

  lemma LowerDashesPlain(jurisdiction: string)
    ensures Plain(DashRuns(ToLowerCase(jurisdiction)))
  {
    var lower := ToLowerCase(jurisdiction);
    var name := DashRuns(lower);
    forall k | 0 <= k < |name| ensures !IsUpper(name[k]) {
      if name[k] != '-' {
        var i :| 0 <= i < |lower| && lower[i] == name[k];
      }
    }
  }

  lemma FilenameParts(name: string)
    requires Plain(name)
    ensures var filename := "mines-" + name + ".geojson";
      && |filename| >= 14
      && filename[..6] == "mines-" && filename[|filename| - 8..] == ".geojson"
      && Plain(filename)
  {
    var head, tail := "mines-", ".geojson";
    assert Plain(head) && Plain(tail);
    var filename := head + name + tail;
    assert filename[..6] == head;
    assert filename[|filename| - 8..] == tail;
    forall k | 0 <= k < |filename| ensures !IsJsWhitespace(filename[k]) && !IsUpper(filename[k]) {
      if k < 6 {
        assert filename[k] == head[k];
      } else if k < 6 + |name| {
        assert filename[k] == name[k - 6];
      } else {
        assert filename[k] == tail[k - 6 - |name|];
      }
    }
  }

  /** The files of the jurisdictions `keys`, in that order. */
  function GroupFiles(fs: seq<GeoFeature>, keys: seq<string>): (writes: seq<FileWrite>)
    ensures |writes| == |keys|
    ensures forall k :: 0 <= k < |keys| ==> writes[k] == FileWrite(GroupFilename(keys[k]), GroupOf(fs, keys[k]))
  {
    seq(|keys|, k requires 0 <= k < |keys| => FileWrite(GroupFilename(keys[k]), GroupOf(fs, keys[k])))
  }

  /** Everything the script writes when it does not crash: all the mines,
      then one file per jurisdiction in order of first appearance. */
  function Writes(fs: seq<GeoFeature>): seq<FileWrite>
  {
    [FileWrite("all-mines.geojson", fs)] + GroupFiles(fs, KeysOf(fs))
  }

  /** The first file holds every feature; each jurisdiction file holds only
      that jurisdiction's features, there is one per jurisdiction, none
      of them is the all-mines file, and together they hold every feature
      exactly once. */
  lemma WritesPartition(fs: seq<GeoFeature>)
    ensures var w := Writes(fs);
      && |w| == 1 + |KeysOf(fs)|
      && w[0] == FileWrite("all-mines.geojson", fs)
      && (forall k :: 1 <= k < |w| ==> w[k].filename != "all-mines.geojson")
      && (forall k :: 1 <= k < |w| ==> forall j :: 0 <= j < |w[k].features| ==>
            w[k].features[j].properties.jurisdiction == KeysOf(fs)[k - 1])
      && SumSizes(fs, KeysOf(fs)) == |fs|
  {
    var w, keys := Writes(fs), KeysOf(fs);
    var files := GroupFiles(fs, keys);
    WritesSplit(fs);
    JurisdictionFiles(fs, keys);
    forall k | 1 <= k < |w|
      ensures w[k].filename != "all-mines.geojson"
      ensures forall j :: 0 <= j < |w[k].features| ==> w[k].features[j].properties.jurisdiction == keys[k - 1]
    {
      assert w[k] == files[k - 1];
    }
    GroupsPartition(fs);
  }

  lemma WritesSplit(fs: seq<GeoFeature>)
    ensures var w, files := Writes(fs), GroupFiles(fs, KeysOf(fs));
      && |w| == 1 + |files| && w[0] == FileWrite("all-mines.geojson", fs)
      && forall k :: 1 <= k < |w| ==> w[k] == files[k - 1]
  {
    var head, files := FileWrite("all-mines.geojson", fs), GroupFiles(fs, KeysOf(fs));
    assert Writes(fs) == [head] + files;
    Prepended(head, files);
  }

  lemma Prepended(head: FileWrite, files: seq<FileWrite>)
    ensures var w := [head] + files;
      && |w| == 1 + |files| && w[0] == head
      && forall k :: 1 <= k < |w| ==> w[k] == files[k - 1]
  {
  }

  lemma JurisdictionFiles(fs: seq<GeoFeature>, keys: seq<string>)
    ensures var files := GroupFiles(fs, keys);
      && (forall k :: 0 <= k < |files| ==> files[k].filename != "all-mines.geojson")
      && (forall k :: 0 <= k < |files| ==> forall j :: 0 <= j < |files[k].features| ==>
            files[k].features[j].properties.jurisdiction == keys[k])
  {
    var files := GroupFiles(fs, keys);
    forall k | 0 <= k < |files|
      ensures files[k].filename != "all-mines.geojson"
      ensures forall j :: 0 <= j < |files[k].features| ==> files[k].features[j].properties.jurisdiction == keys[k]
    {
      assert files[k].features == GroupOf(fs, keys[k]);
      assert files[k].filename[0] == 'm';
    }
  }

  /** The loop over the data lines, grouping the features on a plain
      object. It stops at the first feature whose jurisdiction is an
      inherited name, where `push` is not a function. */
  method GroupLines(lines: seq<string>, cols: GeoColumns)
    returns (crashed: bool, allFeatures: seq<GeoFeature>, groups: map<string, seq<GeoFeature>>, order: seq<string>)
    requires |lines| >= 1
    ensures var all := Present(LineFeatures(lines, |lines|, cols), |lines|);
      && (crashed <==> Crashes(all))
      && (!crashed ==>
        && allFeatures == all
        && order == KeysOf(all)
        && (forall key :: key in groups <==> key in order)
        && (forall key :: key in groups ==> groups[key] == GroupOf(all, key)))
  {
    ghost var rows := LineFeatures(lines, |lines|, cols);
    crashed := false;
    allFeatures, groups, order := [], map[], [];
    var i := 1;
    while i < |lines|
      invariant 1 <= i <= |lines|
      invariant allFeatures == Present(rows, i)
      invariant !Crashes(allFeatures)
      invariant order == KeysOf(allFeatures)
      invariant forall key :: key in groups <==> key in order
      invariant forall key :: key in groups ==> groups[key] == GroupOf(allFeatures, key)
    {
      var feature := ReadFeature(lines, i, cols, rows);
      if feature.Some? {
        var f := feature.value;
        var key := f.properties.jurisdiction;
        if key in InheritedKeys {
          crashed := true;
          EveryPresentKept(rows, |lines|, i);
          MemberCrashes(Present(rows, |lines|), f);
          return;
        }
        groups, order := AddToGroup(groups, order, allFeatures, f);
        CrashesAppend(allFeatures, f);
        allFeatures := allFeatures + [f];
      }
      i := i + 1;
    }
  }

  /** `jurisdictionGroups[jurisdiction].push(feature)`, creating the
      group first when the jurisdiction is not an own key yet. */
  method AddToGroup(groups: map<string, seq<GeoFeature>>, order: seq<string>, ghost fs: seq<GeoFeature>, f: GeoFeature)
    returns (groups': map<string, seq<GeoFeature>>, order': seq<string>)
    requires order == KeysOf(fs)
    requires forall key :: key in groups <==> key in order
    requires forall key :: key in groups ==> groups[key] == GroupOf(fs, key)
    ensures order' == KeysOf(fs + [f])
    ensures forall key :: key in groups' <==> key in order'
    ensures forall key :: key in groups' ==> groups'[key] == GroupOf(fs + [f], key)
  {
    var jurisdiction := f.properties.jurisdiction;
    KeysOfAppend(fs, f);
    var group: seq<GeoFeature>;
    if jurisdiction !in groups {
      assert GroupOf(fs, jurisdiction) == [] by {
        GroupOfAbsent(fs, jurisdiction);
      }
      group, order' := [], order + [jurisdiction];
    } else {
      group, order' := groups[jurisdiction], order;
    }
    groups' := groups[jurisdiction := group + [f]];
    forall key | key in groups' ensures groups'[key] == GroupOf(fs + [f], key) {
      GroupOfAppend(fs, f, key);
    }
  }

  /** The body of the loop for one line: split it, parse both coordinates
      and, when neither is NaN, build the feature. */
  method ReadFeature(lines: seq<string>, i: nat, cols: GeoColumns, ghost rows: seq<Option<GeoFeature>>)
    returns (feature: Option<GeoFeature>)
    requires 1 <= i < |lines|
    requires rows == LineFeatures(lines, |lines|, cols)
    ensures feature == rows[i]
  {
    LineFeaturesAt(lines, |lines|, cols, i);
    var row := Split(lines[i], ',');
    var lat := ParseCell(Cell(row, cols.lat));
    var lng := ParseCell(Cell(row, cols.lng));
    if lat.Some? && lng.Some? {
      feature := Some(GeoFeature([lng.value, lat.value], GeoProperties(
        OrDefault(Cell(row, cols.name), "Unknown"),
        OrDefault(Cell(row, cols.jurisdiction), "Unknown"),
        OrDefault(Cell(row, cols.status), "Unknown"),
        OrDefault(Cell(row, cols.commodity), ""),
        OrDefault(Cell(row, cols.mineType), ""),
        lat.value, lng.value)));
    } else {
      feature := None;
    }
  }

  /** The loop over `Object.entries(jurisdictionGroups)`, after the file of
      all mines. */
  method WriteFiles(allFeatures: seq<GeoFeature>, groups: map<string, seq<GeoFeature>>, order: seq<string>)
    returns (writes: seq<FileWrite>)
    requires order == KeysOf(allFeatures)
    requires forall key :: key in groups <==> key in order
    requires forall key :: key in groups ==> groups[key] == GroupOf(allFeatures, key)
    ensures writes == Writes(allFeatures)
  {
    writes := [FileWrite("all-mines.geojson", allFeatures)];
    var j := 0;
    while j < |order|
      invariant 0 <= j <= |order|
      invariant writes == [FileWrite("all-mines.geojson", allFeatures)] + GroupFiles(allFeatures, order[..j])
    {
      var jurisdiction := order[j];
      WritesStep(FileWrite("all-mines.geojson", allFeatures), allFeatures, order, j);
      writes := writes + [FileWrite(GroupFilename(jurisdiction), groups[jurisdiction])];
      j := j + 1;
    }
    assert order[..j] == order;
  }

  /** One more jurisdiction file after the ones already written. */
  lemma WritesStep(head: FileWrite, fs: seq<GeoFeature>, keys: seq<string>, j: nat)
    requires j < |keys|
    ensures [head] + GroupFiles(fs, keys[..j + 1])
      == ([head] + GroupFiles(fs, keys[..j])) + [FileWrite(GroupFilename(keys[j]), GroupOf(fs, keys[j]))]
  {
    var before := GroupFiles(fs, keys[..j]);
    var after := GroupFiles(fs, keys[..j + 1]);
    assert after == before + [FileWrite(GroupFilename(keys[j]), GroupOf(fs, keys[j]))];
  }

  /** The whole script: read the lines and the header, group the rows, and
      write the files unless the grouping crashed, in which case nothing is
      written. */
  method ConvertCsv(csvText: string) returns (crashed: bool, writes: seq<FileWrite>)
    ensures crashed <==> Crashes(Converted(csvText))
    ensures crashed ==> writes == []
    ensures !crashed ==> writes == Writes(Converted(csvText))
  {
    var lines := Lines(csvText);
    var headers := Split(lines[0], ',');
    var cols := HeaderColumns(headers);
    var allFeatures, groups, order;
    crashed, allFeatures, groups, order := GroupLines(lines, cols);
    if crashed {
      writes := [];
    } else {
      writes := WriteFiles(allFeatures, groups, order);
    }
  }

  /** A data line whose jurisdiction is `constructor` stops the script:
      `{}['constructor']` is the function `Object`, so no group is created
      and `push` is called on a function. */
  lemma ConstructorJurisdictionCrashes()
    ensures Crashes(Converted("Lat_DD,Long_DD,Jurisdiction\n1,2,constructor"))
  {
    var lines := ["Lat_DD,Long_DD,Jurisdiction", "1,2,constructor"];
    ExampleLines("Lat_DD,Long_DD,Jurisdiction\n1,2,constructor", lines);
    var cols := ExampleColumns(lines[0]);
    var rows := LineFeatures(lines, 2, cols);
    LineFeaturesAt(lines, 2, cols, 1);
    ExampleRow(lines[1], cols);
    EveryPresentKept(rows, 2, 1);
  }

  lemma ExampleLines(text: string, lines: seq<string>)
    requires text == "Lat_DD,Long_DD,Jurisdiction\n1,2,constructor"
    requires lines == ["Lat_DD,Long_DD,Jurisdiction", "1,2,constructor"]
    ensures Lines(text) == lines
  {
    ExampleTrimmed(text);
    TextJoined();
    SplitJoin(lines, '\n');
  }

  lemma ExampleTrimmed(text: string)
    requires text == "Lat_DD,Long_DD,Jurisdiction\n1,2,constructor"
    ensures Trim(text) == text
  {
    assert text[0] == 'L' && text[|text| - 1] == 'r';
    TrimUnchanged(text);
  }

  lemma ExampleColumns(header: string) returns (cols: GeoColumns)
    requires header == "Lat_DD,Long_DD,Jurisdiction"
    ensures cols == HeaderColumns(Split(header, ','))
    ensures cols.lat == 0 && cols.lng == 1 && cols.jurisdiction == 2
  {
    var names := ["Lat_DD", "Long_DD", "Jurisdiction"];
    HeaderJoined();
    SplitJoin(names, ',');
    ExampleIndices(names);
    cols := HeaderColumns(names);
  }

  lemma ExampleIndices(names: seq<string>)
    requires names == ["Lat_DD", "Long_DD", "Jurisdiction"]
    ensures IndexOf(names, "Lat_DD") == 0 && IndexOf(names, "Long_DD") == 1 && IndexOf(names, "Jurisdiction") == 2
  {
  }

  lemma ExampleCells(line: string)
    requires line == "1,2,constructor"
    ensures Split(line, ',') == ["1", "2", "constructor"]
  {
    var cells := ["1", "2", "constructor"];
    CellsJoined();
    SplitJoin(cells, ',');
  }

  lemma TextJoined()
    ensures Join(["Lat_DD,Long_DD,Jurisdiction", "1,2,constructor"], "\n") == "Lat_DD,Long_DD,Jurisdiction\n1,2,constructor"
  {
    JoinTwo("Lat_DD,Long_DD,Jurisdiction", "1,2,constructor", "\n");
  }

  lemma HeaderJoined()
    ensures Join(["Lat_DD", "Long_DD", "Jurisdiction"], ",") == "Lat_DD,Long_DD,Jurisdiction"
  {
    JoinThree("Lat_DD", "Long_DD", "Jurisdiction", ",");
  }

  lemma CellsJoined()
    ensures Join(["1", "2", "constructor"], ",") == "1,2,constructor"
  {
    JoinThree("1", "2", "constructor", ",");
  }

  lemma ExampleOne()
    ensures ParseCell(Some("1")) == Some(1.0)
  {
    ParseDigits("1");
    DigitValue('1');
  }

  lemma ExampleTwo()
    ensures ParseCell(Some("2")) == Some(2.0)
  {
    ParseDigits("2");
    DigitValue('2');
  }

  lemma ExampleRow(line: string, cols: GeoColumns)
    requires line == "1,2,constructor"
    requires cols.lat == 0 && cols.lng == 1 && cols.jurisdiction == 2
    ensures RowFeature(line, cols).Some? && RowFeature(line, cols).value.properties.jurisdiction == "constructor"
  {
    ExampleCells(line);
    ExampleCellValues(Split(line, ','), cols);
  }

  lemma ExampleCellValues(row: seq<string>, cols: GeoColumns)
    requires row == ["1", "2", "constructor"]
    requires cols.lat == 0 && cols.lng == 1 && cols.jurisdiction == 2
    ensures ParseCell(Cell(row, cols.lat)).Some? && ParseCell(Cell(row, cols.lng)).Some?
    ensures OrDefault(Cell(row, cols.jurisdiction), "Unknown") == "constructor"
  {
    assert ParseCell(Cell(row, cols.lat)).Some? by {
      CellAt(row, cols.lat, "1");
      ExampleOne();
    }
    assert ParseCell(Cell(row, cols.lng)).Some? by {
      CellAt(row, cols.lng, "2");
      ExampleTwo();
    }
    assert OrDefault(Cell(row, cols.jurisdiction), "Unknown") == "constructor" by {
      CellAt(row, cols.jurisdiction, "constructor");
    }
  }

  lemma CellAt(row: seq<string>, i: int, c: string)
    requires 0 <= i < |row| && row[i] == c
    ensures Cell(row, i) == Some(c)
  {
  }
}
