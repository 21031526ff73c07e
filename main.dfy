/**
 * The atnetgo command (main.go): it filters the stations of a decoded
 * device collection by name and writes their sensor values in one of four
 * formats: a greppable list, an indented listing, InfluxDB line protocol,
 * or a nested JSON object.
 *
 * Output is returned instead of written: a formatter yields its lines in
 * order. Go visits the entries of a map in an unspecified order, so each
 * line-producing formatter also yields, as a ghost result, the order in
 * which it visited every module's readings; its output is stated for that
 * order, and the lemmas state what holds for every order. A device whose
 * data-type list names a missing field makes Go panic; here the formatter
 * returns that field's name instead of its lines.
 */
module Atnetgo {
  import opened GoValue
  import opened GoStrings
  import opened GoFmt
  import Seqs
  import ExzzWeather

  type Device = ExzzWeather.Device

  /** The filtered collection the formatters print (Go struct DeviceCollection). */
  datatype DeviceCollection = DeviceCollection(netatmoStations: seq<Device>, modules: seq<Device>)
  {
    /** The list of stations. */
    function Stations(): seq<Device>
    {
      netatmoStations
    }
  }

  // ---------------------------------------------------------------------
  // The station filter

  /** A station matches when its name contains the filter, case-sensitively. */
  function MatchesFilter(device: Device, filter: string): (b: bool)
    ensures b <==> Contains(device.stationName, filter)
  {
    Index(device.stationName, filter) > -1
  }

  /** The stations that match the filter, in their order. */
  function Matching(stations: seq<Device>, filter: string): seq<Device>
  {
    if stations == [] then [] else
      var rest := Matching(stations[..|stations| - 1], filter);
      var last := stations[|stations| - 1];
      if MatchesFilter(last, filter) then rest + [last] else rest
  }

  /** A station is kept exactly when it is in the list and its name contains the filter. */
  lemma {:induction false} MatchingMembers(stations: seq<Device>, filter: string)
    ensures forall s :: s in Matching(stations, filter) <==> s in stations && Contains(s.stationName, filter)
  {
    if stations != [] {
      MatchingMembers(stations[..|stations| - 1], filter);
      assert stations == stations[..|stations| - 1] + [stations[|stations| - 1]];
    }
  }

  /** The kept stations are in their original order. */
  lemma {:induction false} MatchingOrder(stations: seq<Device>, filter: string)
    ensures Seqs.IsSubsequence(Matching(stations, filter), stations)
  {
    if stations != [] {
      var init := stations[..|stations| - 1];
      MatchingOrder(init, filter);
      Seqs.SubsequenceExtend(Matching(init, filter), init, stations[|stations| - 1]);
      assert stations == init + [stations[|stations| - 1]];
    }
  }

  /** A filter that no station name contains keeps nothing. */
  lemma MatchingNone(stations: seq<Device>, filter: string)
    requires forall i :: 0 <= i < |stations| ==> !Contains(stations[i].stationName, filter)
    ensures Matching(stations, filter) == []
  {
    MatchingMembers(stations, filter);
  }

  /**
   * Every name contains the empty string, so filtering by "" would keep
   * every station: skipping the filter for "" does not change the result.
   */
  lemma {:induction false} MatchingEmptyFilter(stations: seq<Device>)
    ensures Matching(stations, "") == stations
  {
    if stations != [] {
      var last := stations[|stations| - 1];
      assert OccursAt(last.stationName, "", 0);
      MatchingEmptyFilter(stations[..|stations| - 1]);
    }
  }

  /**
   * filterDevices: the collection's stations and modules, where a
   * non-empty filter keeps only the matching stations. The module list
   * is never filtered.
   */
  method FilterDevices(dc: ExzzWeather.DeviceCollection, sfilter: string) returns (collection: DeviceCollection)
    ensures collection.modules == dc.modules
    ensures sfilter == "" ==> collection.netatmoStations == dc.stations
    ensures sfilter != "" ==> collection.netatmoStations == Matching(dc.stations, sfilter)
  {
    collection := DeviceCollection(dc.stations, dc.modules);
    if sfilter != "" {
      var all := collection.Stations();
      var stations: seq<Device> := [];
      for i := 0 to |all|
        invariant stations == Matching(all[..i], sfilter)
      {
        assert all[..i + 1][..i] == all[..i];
        var station := all[i];
        if MatchesFilter(station, sfilter) {
          stations := stations + [station];
        }
      }
      assert all[..|all|] == all;
      collection := collection.(netatmoStations := stations);
    }
  }

  // ---------------------------------------------------------------------
  // Rendering values

  /** valueString: the text a sensor value is printed as. */
  function ValueString(value: Value): string
  {
    match value
    case F(f) => FormatFixed2(f)
    case S(s) => s
    case I(i) => FormatInt(i)
    case Other => "-"
  }

  /**
   * Floats are printed to two decimals (reading the text back is within
   * half a hundredth of the value), strings verbatim, integers in decimal
   * (reading the text back gives the integer), and anything else as a
   * dash; only a string can be printed as nothing.
   */
  lemma ValueStringSpec(value: Value)
    ensures value.S? ==> ValueString(value) == value.s
    ensures value.I? ==> ParseInt(ValueString(value)) == Some(value.i)
    ensures value.F? ==> ParseFixed2(ValueString(value)).Some?
    ensures value.F? ==> -0.005 <= ParseFixed2(ValueString(value)).value - value.f <= 0.005
    ensures value.Other? ==> ValueString(value) == "-"
    ensures !value.S? ==> ValueString(value) != ""
  {
    match value
    case F(f) => FormatFixed2Accurate(f);
    case S(_) =>
    case I(i) => FormatIntRoundTrip(i);
    case Other =>
  }

  /** The sample values of the documentation. */
  lemma ValueStringExamples()
    ensures ValueString(F(3.14159)) == "3.14"
    ensures ValueString(I(42)) == "42"
    ensures ValueString(S("ok")) == "ok"
    ensures ValueString(Other) == "-"
  {
    assert Hundredths(3.14159) == 314;
    assert NatDigits(3) == "3";
    assert NatDigits(42) == "42";
  }

  /** The sensor names whose line-protocol values carry the integer marker. */
  const IntegerTypes: map<string, string> := map["co2" := "i", "humidity" := "i", "noise" := "i"]

  /** typeSuffix: the integer marker "i" for CO2, humidity and noise, in any case; otherwise nothing. */
  function TypeSuffix(t: string): (r: string)
    ensures r == "i" <==> ToLower(t) in {"co2", "humidity", "noise"}
    ensures r != "i" ==> r == ""
  {
    var key := ToLower(t);
    if key in IntegerTypes then IntegerTypes[key] else ""
  }

  /** The suffix does not depend on the case of the sensor name. */
  lemma TypeSuffixIgnoresCase(t: string)
    ensures TypeSuffix(ToLower(t)) == TypeSuffix(t)
  {
    ToLowerIdempotent(t);
  }

  /** The lower-case forms of the three integer sensor names. */
  lemma LowerIntegerNames()
    ensures ToLower("Humidity") == "humidity"
    ensures ToLower("CO2") == "co2"
    ensures ToLower("Noise") == "noise"
  {
    LowerLiteral("Humidity", "humidity");
    LowerLiteral("CO2", "co2");
    LowerLiteral("Noise", "noise");
  }

  /** A name starting with another capital than C, H or N is not an integer sensor in any case. */
  lemma LowerNotInteger(name: string)
    requires 0 < |name| && name[0] in "TPARWGL"
    ensures ToLower(name) !in {"co2", "humidity", "noise"}
  {
    var c := name[0];
    assert 'A' <= c <= 'Z' && c != 'C' && c != 'H' && c != 'N';
    ToLowerChars(name);
    var low := ToLower(name);
    assert low[0] == LowerChar(c);
    assert low[0] != 'c' && low[0] != 'h' && low[0] != 'n';
    assert low != "co2" && low != "humidity" && low != "noise";
  }

  /**
   * For every field of the dashboard record, the integer marker is
   * written exactly when the field's value is an integer, so every
   * line-protocol value has the type of its field.
   */
  lemma TypeSuffixMatchesFieldKind(d: ExzzWeather.DashboardData, name: string)
    requires ExzzWeather.FieldByName(d, name).Some?
    ensures TypeSuffix(name) == "i" <==> ExzzWeather.FieldByName(d, name).value.I?
  {
    ExzzWeather.FieldByNameSpec(d, name);
    if name in ["Humidity", "CO2", "Noise"] {
      LowerIntegerNames();
    } else {
      assert name[0] in "TPARWGL";
      LowerNotInteger(name);
    }
  }

  // ---------------------------------------------------------------------
  // InfluxDB line protocol

  /** The tag set of a station's module: both names lower-cased, spaces as underscores. */
  function TagString(station: string, moduleName: string): string
  {
    ReplaceAll(Join(["station=" + ToLower(station), "module=" + ToLower(moduleName)], ","), ' ', '_')
  }

  /** One line-protocol point: measurement, tags, the value and its type marker. */
  function InfluxLine(tags: string, dataType: string, value: Value): string
  {
    ToLower(dataType) + "," + tags + " value=" + ValueString(value) + TypeSuffix(dataType)
  }

  /** The joined tags before spaces are replaced. */
  lemma TagStringJoined(station: string, moduleName: string)
    ensures TagString(station, moduleName) ==
      ReplaceAll("station=" + ToLower(station) + "," + ("module=" + ToLower(moduleName)), ' ', '_')
  {
    JoinPair("station=" + ToLower(station), "module=" + ToLower(moduleName), ",");
  }

  /** Replacing spaces in the joined tags touches the names only. */
  lemma TagReplace(x: string, y: string)
    ensures ReplaceAll("station=" + x + "," + ("module=" + y), ' ', '_') ==
      "station=" + ReplaceAll(x, ' ', '_') + ",module=" + ReplaceAll(y, ' ', '_')
  {
    var rx, ry := ReplaceAll(x, ' ', '_'), ReplaceAll(y, ' ', '_');
    var sx := "station=" + x;
    assert ReplaceAll(sx, ' ', '_') == "station=" + rx by {
      ReplaceAllAppend("station=", x, ' ', '_');
      ReplaceAllAbsent("station=", ' ', '_');
    }
    assert ReplaceAll(sx + ",", ' ', '_') == "station=" + rx + "," by {
      ReplaceAllAppend(sx, ",", ' ', '_');
      ReplaceAllAbsent(",", ' ', '_');
    }
    assert ReplaceAll("module=" + y, ' ', '_') == "module=" + ry by {
      ReplaceAllAppend("module=", y, ' ', '_');
      ReplaceAllAbsent("module=", ' ', '_');
    }
    ReplaceAllAppend(sx + ",", "module=" + y, ' ', '_');
    SpliceModule("station=" + rx, ry);
  }

  /** The comma and the module key read as one separator. */
  lemma SpliceModule(a: string, b: string)
    ensures a + "," + ("module=" + b) == a + ",module=" + b
  {
    assert "," + "module=" == ",module=";
  }

  /** The tag set spelled out; the names alone are lower-cased and have their spaces replaced. */
  lemma TagStringShape(station: string, moduleName: string)
    ensures TagString(station, moduleName) ==
      "station=" + ReplaceAll(ToLower(station), ' ', '_') + ",module=" + ReplaceAll(ToLower(moduleName), ' ', '_')
    ensures ' ' !in TagString(station, moduleName)
  {
    TagStringJoined(station, moduleName);
    TagReplace(ToLower(station), ToLower(moduleName));
    ReplaceAllRemoves("station=" + ToLower(station) + "," + ("module=" + ToLower(moduleName)), ' ', '_');
  }

  /** A line-protocol line in full, for a reading of a module of a station. */
  lemma InfluxLineShape(station: string, moduleName: string, dataType: string, value: Value)
    ensures InfluxLine(TagString(station, moduleName), dataType, value) ==
      ToLower(dataType) + ",station=" + ReplaceAll(ToLower(station), ' ', '_') +
      ",module=" + ReplaceAll(ToLower(moduleName), ' ', '_') + " value=" + ValueString(value) + TypeSuffix(dataType)
  {
    TagStringShape(station, moduleName);
    SpliceTags(ToLower(dataType), ReplaceAll(ToLower(station), ' ', '_'), ReplaceAll(ToLower(moduleName), ' ', '_'),
      ValueString(value), TypeSuffix(dataType), TagString(station, moduleName));
  }

  lemma SpliceTags(m: string, x: string, y: string, v: string, t: string, tags: string)
    requires tags == "station=" + x + ",module=" + y
    ensures m + "," + tags + " value=" + v + t == m + ",station=" + x + ",module=" + y + " value=" + v + t
  {
    assert ",station=" == "," + "station=";
  }

  /** A sample point as InfluxDB receives it. */
  lemma InfluxLineExample()
    ensures InfluxLine(TagString("My Station", "Outdoor"), "Humidity", I(55)) ==
      "humidity,station=my_station,module=outdoor value=55i"
  {
    InfluxLineShape("My Station", "Outdoor", "Humidity", I(55));
    SampleNames();
    LowerIntegerNames();
    assert NatDigits(55) == "55";
    assert ValueString(I(55)) == "55";
    assert TypeSuffix("Humidity") == "i";
    SampleLineText();
  }

  /** The sample station and module names, lower-cased and with spaces replaced. */
  lemma SampleNames()
    ensures ReplaceAll(ToLower("My Station"), ' ', '_') == "my_station"
    ensures ReplaceAll(ToLower("Outdoor"), ' ', '_') == "outdoor"
  {
    LowerLiteral("My Station", "my station");
    LowerLiteral("Outdoor", "outdoor");
    ReplaceLiteral("my station", "my_station");
    ReplaceAllAbsent("outdoor", ' ', '_');
  }

  /** Lower-casing a literal, checked character by character. */
  lemma LowerLiteral(s: string, t: string)
    requires |s| == |t|
    requires forall i :: 0 <= i < |s| ==> LowerChar(s[i]) == t[i]
    ensures ToLower(s) == t
  {
    ToLowerChars(s);
  }

  /** Replacing the spaces of a literal, checked character by character. */
  lemma ReplaceLiteral(s: string, t: string)
    requires |s| == |t|
    requires forall i :: 0 <= i < |s| ==> t[i] == (if s[i] == ' ' then '_' else s[i])
    ensures ReplaceAll(s, ' ', '_') == t
  {
    ReplaceAllChars(s, ' ', '_');
  }

  /** The sample line, put together piece by piece. */
  lemma SampleLineText()
    ensures "humidity" + ",station=" + "my_station" + ",module=" + "outdoor" + " value=" + "55" + "i" ==
      "humidity,station=my_station,module=outdoor value=55i"
  {
    assert "humidity" + ",station=" == "humidity,station=";
    assert "humidity,station=" + "my_station" == "humidity,station=my_station";
    assert "humidity,station=my_station" + ",module=" == "humidity,station=my_station,module=";
    assert "humidity,station=my_station,module=" + "outdoor" == "humidity,station=my_station,module=outdoor";
    assert "humidity,station=my_station,module=outdoor" + " value=" == "humidity,station=my_station,module=outdoor value=";
    assert "humidity,station=my_station,module=outdoor value=" + "55" == "humidity,station=my_station,module=outdoor value=55";
  }

  // ---------------------------------------------------------------------
  // What the formatters print

  /** A module's name and the readings Data() extracts for it. */
  datatype ModuleView = ModuleView(name: string, data: map<string, Value>)

  /** A station's name and the views of its modules, the station itself last. */
  datatype StationView = StationView(name: string, modules: seq<ModuleView>)

  /** What Data() extracts for a device. */
  ghost function DataOf(m: Device): Result<map<string, Value>>
  {
    ExzzWeather.Extract(m.dataType, m.dashboardData)
  }

  /**
   * The views of a device list in order, or the first failing extraction
   * (where Go panics).
   */
  ghost function ViewModules(ms: seq<Device>): Result<seq<ModuleView>>
  {
    if ms == [] then Ok([]) else
      match ViewModules(ms[..|ms| - 1])
      case NoSuchField(n) => NoSuchField(n)
      case Ok(mvs) =>
        match ViewModule(ms[|ms| - 1])
        case NoSuchField(n) => NoSuchField(n)
        case Ok(v) => Ok(mvs + [v])
  }

  /** The view of one module, or its failing extraction. */
  ghost function ViewModule(m: Device): Result<ModuleView>
  {
    match DataOf(m)
    case NoSuchField(n) => NoSuchField(n)
    case Ok(data) => Ok(ModuleView(m.moduleName, data))
  }

  /** The view of a station and its modules, or the first failing extraction. */
  ghost function ViewStation(s: Device): Result<StationView>
    reads s
  {
    match ViewModules(s.Modules())
    case NoSuchField(n) => NoSuchField(n)
    case Ok(mvs) => Ok(StationView(s.stationName, mvs))
  }

  /** The views of a station list in order, or the first failing extraction. */
  ghost function ViewStations(ss: seq<Device>): Result<seq<StationView>>
    reads ss
  {
    if ss == [] then Ok([]) else
      match ViewStations(ss[..|ss| - 1])
      case NoSuchField(n) => NoSuchField(n)
      case Ok(vs) =>
        match ViewStation(ss[|ss| - 1])
        case NoSuchField(n) => NoSuchField(n)
        case Ok(v) => Ok(vs + [v])
  }

  /**
   * The views of the devices succeed exactly when every device's
   * extraction does, and then hold each device's name and readings; a
   * failure names a field some device lacks.
   */
  lemma {:induction false} ViewModulesSpec(ms: seq<Device>)
    ensures ViewModules(ms).Ok? <==> forall j :: 0 <= j < |ms| ==> DataOf(ms[j]).Ok?
    ensures ViewModules(ms).Ok? ==> |ViewModules(ms).value| == |ms|
    ensures ViewModules(ms).Ok? ==> forall j :: 0 <= j < |ms| ==>
      ViewModules(ms).value[j] == ModuleView(ms[j].moduleName, DataOf(ms[j]).value)
    ensures ViewModules(ms).NoSuchField? ==>
      exists j :: 0 <= j < |ms| && DataOf(ms[j]) == NoSuchField(ViewModules(ms).name)
  {
    if ms != [] {
      var init := ms[..|ms| - 1];
      ViewModulesSpec(init);
      assert forall j :: 0 <= j < |init| ==> init[j] == ms[j];
    }
  }

  /**
   * Successful views of the stations hold, for each station in order, its
   * name and the views of its modules.
   */
  lemma {:induction false} ViewStationsSpec(ss: seq<Device>)
    ensures ViewStations(ss).Ok? ==> |ViewStations(ss).value| == |ss|
    ensures ViewStations(ss).Ok? ==> forall i :: 0 <= i < |ss| ==>
      ViewStations(ss).value[i].name == ss[i].stationName &&
      ViewModules(ss[i].Modules()) == Ok(ViewStations(ss).value[i].modules)
  {
    if ss != [] {
      var init := ss[..|ss| - 1];
      ViewStationsSpec(init);
      assert forall i :: 0 <= i < |init| ==> init[i] == ss[i];
    }
  }

  /** Once a prefix of the devices fails, the whole list fails the same way. */
  lemma {:induction false} ViewModulesPersists(ms: seq<Device>, n: nat)
    requires n <= |ms|
    requires ViewModules(ms[..n]).NoSuchField?
    ensures ViewModules(ms) == ViewModules(ms[..n])
    decreases |ms| - n
  {
    if n < |ms| {
      assert ms[..n + 1][..n] == ms[..n];
      ViewModulesPersists(ms, n + 1);
    } else {
      assert ms[..n] == ms;
    }
  }

  /** Once a prefix of the stations fails, the whole list fails the same way. */
  lemma {:induction false} ViewStationsPersists(ss: seq<Device>, n: nat)
    requires n <= |ss|
    requires ViewStations(ss[..n]).NoSuchField?
    ensures ViewStations(ss) == ViewStations(ss[..n])
    decreases |ss| - n
  {
    if n < |ss| {
      assert ss[..n + 1][..n] == ss[..n];
      ViewStationsPersists(ss, n + 1);
    } else {
      assert ss[..n] == ss;
    }
  }

  /**
   * The first module whose extraction fails, visiting stations and their
   * modules in order, decides the failure of the whole collection.
   */
  lemma ViewStationsFailure(ss: seq<Device>, i: nat, j: nat)
    requires i < |ss| && j < |ss[i].Modules()|
    requires ViewStations(ss[..i]).Ok?
    requires ViewModules(ss[i].Modules()[..j]).Ok?
    requires DataOf(ss[i].Modules()[j]).NoSuchField?
    ensures ViewStations(ss).NoSuchField?
    ensures ViewStations(ss).name == DataOf(ss[i].Modules()[j]).name
  {
    var ms := ss[i].Modules();
    assert ms[..j + 1][..j] == ms[..j];
    ViewModulesPersists(ms, j + 1);
    assert ss[..i + 1][..i] == ss[..i];
    ViewStationsPersists(ss, i + 1);
  }

  /** The three line-producing output formats. */
  datatype Format = List | Pretty | Influx

  /** A line of the list format. */
  function ListLine(station: string, moduleName: string, dataType: string, value: Value): string
  {
    station + ": " + moduleName + ": " + dataType + ": " + ValueString(value)
  }

  /** A reading line of the pretty format. */
  function PrettyLine(dataType: string, value: Value): string
  {
    "\t\t" + dataType + ": " + ValueString(value)
  }

  /** The header of a station in the pretty format. */
  function StationHeader(name: string): string
  {
    "Station: " + name
  }

  /** The header of a module in the pretty format. */
  function ModuleHeader(name: string): string
  {
    "\t" + name + ":"
  }

  /** How a format prints one reading of a module of a station. */
  function ReadingLine(f: Format, station: string, moduleName: string, dataType: string, value: Value): string
  {
    match f
    case List => ListLine(station, moduleName, dataType, value)
    case Pretty => PrettyLine(dataType, value)
    case Influx => InfluxLine(TagString(station, moduleName), dataType, value)
  }

  /** The headers a format prints before a station's modules. */
  function StationHead(f: Format, name: string): seq<string>
  {
    if f == Pretty then [StationHeader(name)] else []
  }

  /** The headers a format prints before a module's readings. */
  function ModuleHead(f: Format, name: string): seq<string>
  {
    if f == Pretty then [ModuleHeader(name)] else []
  }

  /** A module's readings in the order a formatter visited them. */
  datatype ModuleVisit = ModuleVisit(name: string, readings: seq<(string, Value)>)

  /** A station's modules, each with its visited readings. */
  datatype StationVisit = StationVisit(name: string, modules: seq<ModuleVisit>)

  /** The keys of a sequence of readings. */
  function KeysOf(rs: seq<(string, Value)>): seq<string>
  {
    seq(|rs|, i requires 0 <= i < |rs| => rs[i].0)
  }

  /** Visiting one more reading adds its key at the end. */
  lemma KeysOfSnoc(rs: seq<(string, Value)>, k: string, v: Value)
    ensures KeysOf(rs + [(k, v)]) == KeysOf(rs) + [k]
  {
  }

  /** `rs` is an order in which ranging over `data` can visit it: every entry exactly once. */
  predicate VisitOrder(rs: seq<(string, Value)>, data: map<string, Value>)
  {
    && (forall i :: 0 <= i < |rs| ==> rs[i].0 in data && data[rs[i].0] == rs[i].1)
    && Seqs.NoDuplicates(KeysOf(rs))
    && (forall k :: k in data ==> k in KeysOf(rs))
  }

  /** A module was visited under its own name, its entries in a visiting order. */
  predicate ModuleVisitOf(mv: ModuleVisit, view: ModuleView)
  {
    mv.name == view.name && VisitOrder(mv.readings, view.data)
  }

  /** The modules were visited in order, each as its view says. */
  predicate ModulesVisitOf(mvs: seq<ModuleVisit>, views: seq<ModuleView>)
  {
    && |mvs| == |views|
    && forall j :: 0 <= j < |mvs| ==> ModuleVisitOf(mvs[j], views[j])
  }

  /** A station was visited under its own name, its modules as their views say. */
  predicate StationVisitOf(sv: StationVisit, view: StationView)
  {
    sv.name == view.name && ModulesVisitOf(sv.modules, view.modules)
  }

  /** The stations were visited in order, each as its view says. */
  predicate VisitsOf(svs: seq<StationVisit>, views: seq<StationView>)
  {
    && |svs| == |views|
    && forall i :: 0 <= i < |svs| ==> StationVisitOf(svs[i], views[i])
  }

  /** The lines of a module's visited readings. */
  function ReadingLines(f: Format, station: string, moduleName: string, rs: seq<(string, Value)>): (r: seq<string>)
    ensures |r| == |rs|
  {
    if rs == [] then [] else
      var n := |rs| - 1;
      ReadingLines(f, station, moduleName, rs[..n]) + [ReadingLine(f, station, moduleName, rs[n].0, rs[n].1)]
  }

  /** The lines of one visited module. */
  function ModuleLines(f: Format, station: string, mv: ModuleVisit): seq<string>
  {
    ModuleHead(f, mv.name) + ReadingLines(f, station, mv.name, mv.readings)
  }

  /** The lines of a station's visited modules, in order. */
  function ModulesOutput(f: Format, station: string, mvs: seq<ModuleVisit>): seq<string>
  {
    if mvs == [] then [] else
      var n := |mvs| - 1;
      ModulesOutput(f, station, mvs[..n]) + ModuleLines(f, station, mvs[n])
  }

  /** The lines of one visited station. */
  function StationLines(f: Format, sv: StationVisit): seq<string>
  {
    StationHead(f, sv.name) + ModulesOutput(f, sv.name, sv.modules)
  }

  /** Everything a formatter prints for the visited stations. */
  function Output(f: Format, svs: seq<StationVisit>): seq<string>
  {
    if svs == [] then [] else
      var n := |svs| - 1;
      Output(f, svs[..n]) + StationLines(f, svs[n])
  }

  // ---------------------------------------------------------------------
  // What the printed lines hold

  /** The line of every visited reading is among the module's lines. */
  lemma {:induction false} ReadingLinesHas(f: Format, station: string, moduleName: string, rs: seq<(string, Value)>, n: nat)
    requires n < |rs|
    ensures ReadingLine(f, station, moduleName, rs[n].0, rs[n].1) in ReadingLines(f, station, moduleName, rs)
  {
    if n < |rs| - 1 {
      ReadingLinesHas(f, station, moduleName, rs[..|rs| - 1], n);
    }
  }

  /** The lines of every visited module are among the lines of its station. */
  lemma {:induction false} ModulesOutputHas(f: Format, station: string, mvs: seq<ModuleVisit>, j: nat)
    requires j < |mvs|
    ensures forall l :: l in ModuleLines(f, station, mvs[j]) ==> l in ModulesOutput(f, station, mvs)
  {
    if j < |mvs| - 1 {
      ModulesOutputHas(f, station, mvs[..|mvs| - 1], j);
    }
  }

  /** The lines of every visited station are among the printed lines. */
  lemma {:induction false} OutputHas(f: Format, svs: seq<StationVisit>, i: nat)
    requires i < |svs|
    ensures forall l :: l in StationLines(f, svs[i]) ==> l in Output(f, svs)
  {
    if i < |svs| - 1 {
      OutputHas(f, svs[..|svs| - 1], i);
    }
  }

  /**
   * Whatever order the maps were visited in, every reading of every module
   * of every station is printed.
   */
  lemma OutputCoversReadings(f: Format, visits: seq<StationVisit>, views: seq<StationView>, i: nat, j: nat, k: string)
    requires VisitsOf(visits, views)
    requires i < |views| && j < |views[i].modules| && k in views[i].modules[j].data
    ensures ReadingLine(f, views[i].name, views[i].modules[j].name, k, views[i].modules[j].data[k]) in Output(f, visits)
  {
    var sv, mv := visits[i], visits[i].modules[j];
    assert StationVisitOf(sv, views[i]);
    assert ModuleVisitOf(mv, views[i].modules[j]);
    var rs := mv.readings;
    assert k in KeysOf(rs);
    var n :| 0 <= n < |rs| && KeysOf(rs)[n] == k;
    ReadingLinesHas(f, sv.name, mv.name, rs, n);
    var line := ReadingLine(f, sv.name, mv.name, rs[n].0, rs[n].1);
    assert line in ModuleLines(f, sv.name, mv);
    ModulesOutputHas(f, sv.name, sv.modules, j);
    assert line in StationLines(f, sv);
    OutputHas(f, visits, i);
  }

  /** Distinct keys are as many as the set they form. */
  lemma {:induction false} DistinctCard(ks: seq<string>)
    requires Seqs.NoDuplicates(ks)
    ensures |set k | k in ks| == |ks|
  {
    if ks != [] {
      var init, last := ks[..|ks| - 1], ks[|ks| - 1];
      DistinctCard(init);
      assert ks == init + [last];
      assert (set k | k in ks) == (set k | k in init) + {last};
      assert last !in (set k | k in init);
    }
  }

  /** A visiting order visits exactly as many readings as the map holds. */
  lemma VisitLength(rs: seq<(string, Value)>, data: map<string, Value>)
    requires VisitOrder(rs, data)
    ensures |rs| == |data|
  {
    var ks := KeysOf(rs);
    DistinctCard(ks);
    assert (set k | k in ks) == data.Keys;
  }

  /** The readings of a station's modules. */
  ghost function ModulesReadings(views: seq<ModuleView>): nat
  {
    if views == [] then 0 else ModulesReadings(views[..|views| - 1]) + |views[|views| - 1].data|
  }

  /** The readings of all stations' modules. */
  ghost function StationsReadings(views: seq<StationView>): nat
  {
    if views == [] then 0 else StationsReadings(views[..|views| - 1]) + ModulesReadings(views[|views| - 1].modules)
  }

  /** The modules of all stations. */
  ghost function ModuleCount(views: seq<StationView>): nat
  {
    if views == [] then 0 else ModuleCount(views[..|views| - 1]) + |views[|views| - 1].modules|
  }

  /** A prefix of the modules was visited as the prefix of their views says. */
  lemma ModulesVisitPrefix(mvs: seq<ModuleVisit>, views: seq<ModuleView>, n: nat)
    requires ModulesVisitOf(mvs, views) && n <= |mvs|
    ensures ModulesVisitOf(mvs[..n], views[..n])
  {
  }

  /** A prefix of the stations was visited as the prefix of their views says. */
  lemma VisitsPrefix(svs: seq<StationVisit>, views: seq<StationView>, n: nat)
    requires VisitsOf(svs, views) && n <= |svs|
    ensures VisitsOf(svs[..n], views[..n])
  {
  }

  /** A visited module prints its header, if any, and a line per reading. */
  lemma ModuleLinesLength(f: Format, station: string, mv: ModuleVisit, view: ModuleView)
    requires ModuleVisitOf(mv, view)
    ensures |ModuleLines(f, station, mv)| == |view.data| + (if f == Pretty then 1 else 0)
  {
    VisitLength(mv.readings, view.data);
  }

  /** A station prints a line per reading, and in the pretty format a header per module. */
  lemma {:induction false} ModulesOutputLength(f: Format, station: string, mvs: seq<ModuleVisit>, views: seq<ModuleView>)
    requires ModulesVisitOf(mvs, views)
    ensures |ModulesOutput(f, station, mvs)| == ModulesReadings(views) + (if f == Pretty then |views| else 0)
  {
    if mvs != [] {
      var n := |mvs| - 1;
      ModulesVisitPrefix(mvs, views, n);
      ModulesOutputLength(f, station, mvs[..n], views[..n]);
      ModuleLinesLength(f, station, mvs[n], views[n]);
    }
  }

  /**
   * The list and line-protocol formats print exactly one line per reading;
   * the pretty format adds a header per station and per module.
   */
  lemma {:induction false} OutputLength(f: Format, visits: seq<StationVisit>, views: seq<StationView>)
    requires VisitsOf(visits, views)
    ensures |Output(f, visits)| == StationsReadings(views) + (if f == Pretty then |views| + ModuleCount(views) else 0)
  {
    if visits != [] {
      var n := |visits| - 1;
      VisitsPrefix(visits, views, n);
      OutputLength(f, visits[..n], views[..n]);
      assert StationVisitOf(visits[n], views[n]);
      ModulesOutputLength(f, visits[n].name, visits[n].modules, views[n].modules);
    }
  }

  /** Two visiting orders of the same map visit the same readings. */
  lemma VisitOrderPerm(rs1: seq<(string, Value)>, rs2: seq<(string, Value)>, data: map<string, Value>)
    requires VisitOrder(rs1, data) && VisitOrder(rs2, data)
    ensures multiset(rs1) == multiset(rs2)
  {
    VisitNoDuplicates(rs1, data);
    VisitNoDuplicates(rs2, data);
    forall x | x in rs1 ensures x in rs2 {
      VisitHas(rs1, rs2, data, x);
    }
    forall x | x in rs2 ensures x in rs1 {
      VisitHas(rs2, rs1, data, x);
    }
    Seqs.NoDuplicatesPermutation(rs1, rs2);
  }

  /** Readings of distinct keys are distinct. */
  lemma VisitNoDuplicates(rs: seq<(string, Value)>, data: map<string, Value>)
    requires VisitOrder(rs, data)
    ensures Seqs.NoDuplicates(rs)
  {
    var ks := KeysOf(rs);
    assert forall i :: 0 <= i < |rs| ==> ks[i] == rs[i].0;
  }

  /** A reading one order visits, the other visits too. */
  lemma VisitHas(rs1: seq<(string, Value)>, rs2: seq<(string, Value)>, data: map<string, Value>, x: (string, Value))
    requires VisitOrder(rs1, data) && VisitOrder(rs2, data) && x in rs1
    ensures x in rs2
  {
    var k := x.0;
    assert k in data && data[k] == x.1;
    assert k in KeysOf(rs2);
    var n :| 0 <= n < |rs2| && KeysOf(rs2)[n] == k;
    assert rs2[n] == x;
  }

  /** The lines of two runs of readings put one after the other. */
  lemma {:induction false} ReadingLinesAppend(f: Format, station: string, moduleName: string, a: seq<(string, Value)>, b: seq<(string, Value)>)
    ensures ReadingLines(f, station, moduleName, a + b) ==
      ReadingLines(f, station, moduleName, a) + ReadingLines(f, station, moduleName, b)
  {
    if b == [] {
      assert a + b == a;
    } else {
      var b' := b[..|b| - 1];
      assert (a + b)[..|a + b| - 1] == a + b';
      ReadingLinesAppend(f, station, moduleName, a, b');
    }
  }

  /** Reordering the readings reorders their lines and nothing else. */
  lemma {:induction false} ReadingLinesPerm(f: Format, station: string, moduleName: string, a: seq<(string, Value)>, b: seq<(string, Value)>)
    requires multiset(a) == multiset(b)
    ensures multiset(ReadingLines(f, station, moduleName, a)) == multiset(ReadingLines(f, station, moduleName, b))
    decreases |a|
  {
    if a == [] {
      assert |b| == |multiset(b)| == 0;
    } else {
      var x, a' := a[|a| - 1], a[..|a| - 1];
      assert a == a' + [x];
      assert x in multiset(b);
      var p :| 0 <= p < |b| && b[p] == x;
      var b1, b2 := b[..p], b[p + 1..];
      assert b == b1 + [x] + b2;
      Seqs.PermutationRemove(a', x, b1, b2);
      ReadingLinesPerm(f, station, moduleName, a', b1 + b2);
      var line := ReadingLine(f, station, moduleName, x.0, x.1);
      assert ReadingLines(f, station, moduleName, [x]) == [line];
      ReadingLinesAppend(f, station, moduleName, b1 + [x], b2);
      ReadingLinesAppend(f, station, moduleName, b1, [x]);
      ReadingLinesAppend(f, station, moduleName, b1, b2);
      Seqs.PermutationInsert(ReadingLines(f, station, moduleName, a'), line,
        ReadingLines(f, station, moduleName, b1), ReadingLines(f, station, moduleName, b2));
    }
  }

  /** Two visits of the same modules print the same lines, in possibly different orders. */
  lemma {:induction false} ModulesOutputPerm(f: Format, station: string, mvs1: seq<ModuleVisit>, mvs2: seq<ModuleVisit>, views: seq<ModuleView>)
    requires ModulesVisitOf(mvs1, views) && ModulesVisitOf(mvs2, views)
    ensures multiset(ModulesOutput(f, station, mvs1)) == multiset(ModulesOutput(f, station, mvs2))
  {
    if views != [] {
      var n := |views| - 1;
      ModulesVisitPrefix(mvs1, views, n);
      ModulesVisitPrefix(mvs2, views, n);
      ModulesOutputPerm(f, station, mvs1[..n], mvs2[..n], views[..n]);
      assert ModuleVisitOf(mvs1[n], views[n]) && ModuleVisitOf(mvs2[n], views[n]);
      VisitOrderPerm(mvs1[n].readings, mvs2[n].readings, views[n].data);
      ReadingLinesPerm(f, station, views[n].name, mvs1[n].readings, mvs2[n].readings);
    }
  }

  /**
   * The order in which a run ranges over the readings changes the order of
   * the printed lines only: two runs over the same stations print the same
   * lines, each as often.
   */
  lemma {:induction false} OutputPerm(f: Format, visits1: seq<StationVisit>, visits2: seq<StationVisit>, views: seq<StationView>)
    requires VisitsOf(visits1, views) && VisitsOf(visits2, views)
    ensures multiset(Output(f, visits1)) == multiset(Output(f, visits2))
  {
    if views != [] {
      var n := |views| - 1;
      VisitsPrefix(visits1, views, n);
      VisitsPrefix(visits2, views, n);
      OutputPerm(f, visits1[..n], visits2[..n], views[..n]);
      assert StationVisitOf(visits1[n], views[n]) && StationVisitOf(visits2[n], views[n]);
      ModulesOutputPerm(f, views[n].name, visits1[n].modules, visits2[n].modules, views[n].modules);
    }
  }

  // ---------------------------------------------------------------------
  // The formatters

  /**
   * `for dataType, value := range data` printing each reading in format
   * `f`: every entry is visited once, in an order the run chooses.
   */
  method RangeData(f: Format, station: string, moduleName: string, data: map<string, Value>)
    returns (lines: seq<string>, ghost rs: seq<(string, Value)>)
    ensures VisitOrder(rs, data)
    ensures lines == ReadingLines(f, station, moduleName, rs)
  {
    lines, rs := [], [];
    var keys := data.Keys;
    while keys != {}
      invariant keys <= data.Keys
      invariant forall i :: 0 <= i < |rs| ==> rs[i].0 in data && data[rs[i].0] == rs[i].1 && rs[i].0 !in keys
      invariant Seqs.NoDuplicates(KeysOf(rs))
      invariant forall k :: k in data ==> k in keys || k in KeysOf(rs)
      invariant lines == ReadingLines(f, station, moduleName, rs)
      decreases keys
    {
      var k :| k in keys;
      ghost var rs' := rs + [(k, data[k])];
      assert rs'[..|rs|] == rs;
      KeysOfSnoc(rs, k, data[k]);
      Seqs.NoDuplicatesSnoc(KeysOf(rs), k);
      lines := lines + [ReadingLine(f, station, moduleName, k, data[k])];
      rs := rs';
      keys := keys - {k};
    }
  }

  /** The view of the stations one more station in. */
  lemma ViewStationsSnoc(ss: seq<Device>, i: nat, vs: seq<StationView>, v: StationView)
    requires i < |ss|
    requires ViewStations(ss[..i]) == Ok(vs)
    requires ViewStation(ss[i]) == Ok(v)
    ensures ViewStations(ss[..i + 1]) == Ok(vs + [v])
  {
    assert ss[..i + 1][..i] == ss[..i];
  }

  /** A failing station fails the stations up to it, if those before it succeed. */
  lemma ViewStationsStop(ss: seq<Device>, i: nat, vs: seq<StationView>)
    requires i < |ss|
    requires ViewStations(ss[..i]) == Ok(vs)
    requires ViewStation(ss[i]).NoSuchField?
    ensures ViewStations(ss[..i + 1]) == NoSuchField(ViewStation(ss[i]).name)
  {
    assert ss[..i + 1][..i] == ss[..i];
  }

  /** The view of a station's modules one more module in. */
  lemma ViewModulesSnoc(ms: seq<Device>, j: nat, vs: seq<ModuleView>, v: ModuleView)
    requires j < |ms|
    requires ViewModules(ms[..j]) == Ok(vs)
    requires ViewModule(ms[j]) == Ok(v)
    ensures ViewModules(ms[..j + 1]) == Ok(vs + [v])
  {
    assert ms[..j + 1][..j] == ms[..j];
  }

  /** A failing module fails the modules up to it, if those before it succeed. */
  lemma ViewModulesStop(ms: seq<Device>, j: nat, vs: seq<ModuleView>)
    requires j < |ms|
    requires ViewModules(ms[..j]) == Ok(vs)
    requires ViewModule(ms[j]).NoSuchField?
    ensures ViewModules(ms[..j + 1]) == NoSuchField(ViewModule(ms[j]).name)
  {
    assert ms[..j + 1][..j] == ms[..j];
  }

  /** The lines of one more visited module follow those of the modules before it. */
  lemma ModulesOutputSnoc(f: Format, station: string, mvs: seq<ModuleVisit>, mv: ModuleVisit)
    ensures ModulesOutput(f, station, mvs + [mv]) == ModulesOutput(f, station, mvs) + ModuleLines(f, station, mv)
  {
    assert (mvs + [mv])[..|mvs|] == mvs;
  }

  /** The lines of one more visited station follow those of the stations before it. */
  lemma OutputSnoc(f: Format, svs: seq<StationVisit>, sv: StationVisit)
    ensures Output(f, svs + [sv]) == Output(f, svs) + StationLines(f, sv)
  {
    assert (svs + [sv])[..|svs|] == svs;
  }

  /** One more module visited as its view says. */
  lemma ModulesVisitSnoc(mvs: seq<ModuleVisit>, views: seq<ModuleView>, mv: ModuleVisit, view: ModuleView)
    requires ModulesVisitOf(mvs, views)
    requires ModuleVisitOf(mv, view)
    ensures ModulesVisitOf(mvs + [mv], views + [view])
  {
  }

  /** One more station visited as its view says. */
  lemma VisitsSnoc(svs: seq<StationVisit>, views: seq<StationView>, sv: StationVisit, view: StationView)
    requires VisitsOf(svs, views)
    requires StationVisitOf(sv, view)
    ensures VisitsOf(svs + [sv], views + [view])
  {
  }

  /**
   * One pass of the module loop of listPrint and prettyPrint: the module's
   * header, if the format has one, and a line for each of its readings; or
   * the name of the field its extraction lacks.
   */
  method PrintModule(f: Format, stationName: string, m: Device)
    returns (r: Result<seq<string>>, ghost mv: ModuleVisit)
    ensures r.NoSuchField? <==> ViewModule(m).NoSuchField?
    ensures r.NoSuchField? ==> r.name == ViewModule(m).name
    ensures r.Ok? ==> ModuleVisitOf(mv, ViewModule(m).value)
    ensures r.Ok? ==> r.value == ModuleLines(f, stationName, mv)
  {
    var header := ModuleHead(f, m.moduleName);
    var _, data := m.Data();
    if data.NoSuchField? {
      return NoSuchField(data.name), ModuleVisit(m.moduleName, []);
    }
    var ls, rs := RangeData(f, stationName, m.moduleName, data.value);
    mv := ModuleVisit(m.moduleName, rs);
    r := Ok(header + ls);
  }

  /**
   * The module loop of listPrint and prettyPrint, one module further: the
   * lines so far extended by those of module `j`, or the name of the field
   * it lacks.
   */
  method PrintModulesStep(f: Format, stationName: string, mods: seq<Device>, j: nat, lines: seq<string>,
                          ghost views: seq<ModuleView>, ghost mvs: seq<ModuleVisit>)
    returns (r: Result<seq<string>>, ghost views': seq<ModuleView>, ghost mvs': seq<ModuleVisit>)
    requires j < |mods|
    requires ViewModules(mods[..j]) == Ok(views)
    requires ModulesVisitOf(mvs, views)
    requires lines == ModulesOutput(f, stationName, mvs)
    ensures r.NoSuchField? ==> ViewModules(mods[..j + 1]) == NoSuchField(r.name)
    ensures r.Ok? ==> ViewModules(mods[..j + 1]) == Ok(views')
    ensures r.Ok? ==> ModulesVisitOf(mvs', views')
    ensures r.Ok? ==> r.value == ModulesOutput(f, stationName, mvs')
  {
    var ml, mv := PrintModule(f, stationName, mods[j]);
    if ml.NoSuchField? {
      ViewModulesStop(mods, j, views);
      return ml, views, mvs;
    }
    ghost var view := ViewModule(mods[j]).value;
    ViewModulesSnoc(mods, j, views, view);
    ModulesOutputSnoc(f, stationName, mvs, mv);
    ModulesVisitSnoc(mvs, views, mv, view);
    r := Ok(lines + ml.value);
    views' := views + [view];
    mvs' := mvs + [mv];
  }

  /**
   * The module loop of listPrint and prettyPrint for one station: its
   * modules' lines in order, or the name of the first missing field.
   */
  method PrintModules(f: Format, stationName: string, mods: seq<Device>)
    returns (r: Result<seq<string>>, ghost mvs: seq<ModuleVisit>)
    ensures r.NoSuchField? <==> ViewModules(mods).NoSuchField?
    ensures r.NoSuchField? ==> r.name == ViewModules(mods).name
    ensures r.Ok? ==> ModulesVisitOf(mvs, ViewModules(mods).value)
    ensures r.Ok? ==> r.value == ModulesOutput(f, stationName, mvs)
  {
    var lines: seq<string> := [];
    ghost var views: seq<ModuleView> := [];
    mvs := [];
    for j := 0 to |mods|
      invariant ViewModules(mods[..j]) == Ok(views)
      invariant ModulesVisitOf(mvs, views)
      invariant lines == ModulesOutput(f, stationName, mvs)
    {
      var next;
      next, views, mvs := PrintModulesStep(f, stationName, mods, j, lines, views, mvs);
      if next.NoSuchField? {
        ViewModulesPersists(mods, j + 1);
        return next, mvs;
      }
      lines := next.value;
    }
    assert mods[..|mods|] == mods;
    r := Ok(lines);
  }

  /**
   * One pass of the station loop of listPrint and prettyPrint: the
   * station's header, if the format has one, then the lines of its modules;
   * or the name of the first missing field.
   */
  method PrintStation(f: Format, station: Device) returns (r: Result<seq<string>>, ghost sv: StationVisit)
    ensures r.NoSuchField? <==> ViewStation(station).NoSuchField?
    ensures r.NoSuchField? ==> r.name == ViewStation(station).name
    ensures r.Ok? ==> StationVisitOf(sv, ViewStation(station).value)
    ensures r.Ok? ==> r.value == StationLines(f, sv)
  {
    var header := StationHead(f, station.stationName);
    var ml, mvs := PrintModules(f, station.stationName, station.Modules());
    sv := StationVisit(station.stationName, mvs);
    if ml.NoSuchField? {
      return NoSuchField(ml.name), sv;
    }
    r := Ok(header + ml.value);
  }

  /**
   * The station loop of listPrint and prettyPrint, one station further:
   * the lines so far extended by those of station `i`, or the name of the
   * field it lacks.
   */
  method PrintStationsStep(f: Format, stations: seq<Device>, i: nat, lines: seq<string>,
                           ghost views: seq<StationView>, ghost visits: seq<StationVisit>)
    returns (r: Result<seq<string>>, ghost views': seq<StationView>, ghost visits': seq<StationVisit>)
    requires i < |stations|
    requires ViewStations(stations[..i]) == Ok(views)
    requires VisitsOf(visits, views)
    requires lines == Output(f, visits)
    ensures r.NoSuchField? ==> ViewStations(stations[..i + 1]) == NoSuchField(r.name)
    ensures r.Ok? ==> ViewStations(stations[..i + 1]) == Ok(views')
    ensures r.Ok? ==> VisitsOf(visits', views')
    ensures r.Ok? ==> r.value == Output(f, visits')
  {
    var sl, sv := PrintStation(f, stations[i]);
    if sl.NoSuchField? {
      ViewStationsStop(stations, i, views);
      return sl, views, visits;
    }
    ghost var view := ViewStation(stations[i]).value;
    ViewStationsSnoc(stations, i, views, view);
    OutputSnoc(f, visits, sv);
    VisitsSnoc(visits, views, sv, view);
    r := Ok(lines + sl.value);
    views' := views + [view];
    visits' := visits + [sv];
  }

  /**
   * The station loop of listPrint and prettyPrint: the lines of every
   * station in order, or the name of the first missing field.
   */
  method PrintStations(f: Format, stations: seq<Device>) returns (r: Result<seq<string>>, ghost visits: seq<StationVisit>)
    ensures r.NoSuchField? <==> ViewStations(stations).NoSuchField?
    ensures r.NoSuchField? ==> r.name == ViewStations(stations).name
    ensures r.Ok? ==> VisitsOf(visits, ViewStations(stations).value)
    ensures r.Ok? ==> r.value == Output(f, visits)
  {
    var lines: seq<string> := [];
    ghost var views: seq<StationView> := [];
    visits := [];
    for i := 0 to |stations|
      invariant ViewStations(stations[..i]) == Ok(views)
      invariant VisitsOf(visits, views)
      invariant lines == Output(f, visits)
    {
      var next;
      next, views, visits := PrintStationsStep(f, stations, i, lines, views, visits);
      if next.NoSuchField? {
        ViewStationsPersists(stations, i + 1);
        return next, visits;
      }
      lines := next.value;
    }
    assert stations[..|stations|] == stations;
    r := Ok(lines);
  }

  /**
   * listPrint: a `station: module: type: value` line for every reading of
   * every module of every station, or the name of the first missing field.
   */
  method ListPrint(devices: DeviceCollection) returns (r: Result<seq<string>>, ghost visits: seq<StationVisit>)
    ensures r.NoSuchField? <==> ViewStations(devices.Stations()).NoSuchField?
    ensures r.NoSuchField? ==> r.name == ViewStations(devices.Stations()).name
    ensures r.Ok? ==> VisitsOf(visits, ViewStations(devices.Stations()).value)
    ensures r.Ok? ==> r.value == Output(List, visits)
  {
    r, visits := PrintStations(List, devices.Stations());
  }

  /**
   * prettyPrint: for every station a `Station: ` header, for every module
   * a tab-indented header, then its readings indented by two tabs; or the
   * name of the first missing field.
   */
  method PrettyPrint(devices: DeviceCollection) returns (r: Result<seq<string>>, ghost visits: seq<StationVisit>)
    ensures r.NoSuchField? <==> ViewStations(devices.Stations()).NoSuchField?
    ensures r.NoSuchField? ==> r.name == ViewStations(devices.Stations()).name
    ensures r.Ok? ==> VisitsOf(visits, ViewStations(devices.Stations()).value)
    ensures r.Ok? ==> r.value == Output(Pretty, visits)
  {
    r, visits := PrintStations(Pretty, devices.Stations());
  }

  // ---------------------------------------------------------------------
  // linePrint, with its two-slot tag buffer

  /** The tag buffer holds the station tag and the module tag of the current module. */
  predicate TagsFor(tags: seq<string>, station: string, moduleName: string)
  {
    tags == ["station=" + ToLower(station), "module=" + ToLower(moduleName)]
  }

  /** Joining the buffer and replacing its spaces gives the module's tag set. */
  lemma TagsJoin(tags: seq<string>, station: string, moduleName: string)
    requires TagsFor(tags, station, moduleName)
    ensures ReplaceAll(Join(tags, ","), ' ', '_') == TagString(station, moduleName)
  {
  }

  /**
   * The reading loop of linePrint: for every entry of `data` the tag set
   * is joined from the buffer afresh and a line-protocol point printed.
   */
  method RangeTags(tags: array<string>, station: string, moduleName: string, data: map<string, Value>)
    returns (lines: seq<string>, ghost rs: seq<(string, Value)>)
    requires TagsFor(tags[..], station, moduleName)
    ensures VisitOrder(rs, data)
    ensures lines == ReadingLines(Influx, station, moduleName, rs)
  {
    lines, rs := [], [];
    var keys := data.Keys;
    while keys != {}
      invariant keys <= data.Keys
      invariant forall i :: 0 <= i < |rs| ==> rs[i].0 in data && data[rs[i].0] == rs[i].1 && rs[i].0 !in keys
      invariant Seqs.NoDuplicates(KeysOf(rs))
      invariant forall k :: k in data ==> k in keys || k in KeysOf(rs)
      invariant lines == ReadingLines(Influx, station, moduleName, rs)
      decreases keys
    {
      var k :| k in keys;
      var tagstr := Join(tags[..], ",");
      tagstr := ReplaceAll(tagstr, ' ', '_');
      TagsJoin(tags[..], station, moduleName);
      ghost var rs' := rs + [(k, data[k])];
      assert rs'[..|rs|] == rs;
      KeysOfSnoc(rs, k, data[k]);
      Seqs.NoDuplicatesSnoc(KeysOf(rs), k);
      lines := lines + [InfluxLine(tagstr, k, data[k])];
      rs := rs';
      keys := keys - {k};
    }
  }

  /**
   * One pass of the module loop of linePrint: the module tag goes into the
   * second slot of the buffer, then a point for each reading; or the name
   * of the field the extraction lacks.
   */
  method LineModule(tags: array<string>, stationName: string, m: Device)
    returns (r: Result<seq<string>>, ghost mv: ModuleVisit)
    requires tags.Length == 2 && tags[0] == "station=" + ToLower(stationName)
    modifies tags
    ensures tags[..] == ["station=" + ToLower(stationName), "module=" + ToLower(m.moduleName)]
    ensures r.NoSuchField? <==> ViewModule(m).NoSuchField?
    ensures r.NoSuchField? ==> r.name == ViewModule(m).name
    ensures r.Ok? ==> ModuleVisitOf(mv, ViewModule(m).value)
    ensures r.Ok? ==> r.value == ModuleLines(Influx, stationName, mv)
  {
    tags[1] := "module=" + ToLower(m.moduleName);
    assert tags[..] == [tags[0], tags[1]];
    var _, data := m.Data();
    if data.NoSuchField? {
      return NoSuchField(data.name), ModuleVisit(m.moduleName, []);
    }
    var ls, rs := RangeTags(tags, stationName, m.moduleName, data.value);
    mv := ModuleVisit(m.moduleName, rs);
    r := Ok(ls);
  }

  /** The module loop of linePrint, one module further. */
  method LineModulesStep(tags: array<string>, stationName: string, mods: seq<Device>, j: nat, lines: seq<string>,
                         ghost views: seq<ModuleView>, ghost mvs: seq<ModuleVisit>)
    returns (r: Result<seq<string>>, ghost views': seq<ModuleView>, ghost mvs': seq<ModuleVisit>)
    requires tags.Length == 2 && tags[0] == "station=" + ToLower(stationName)
    requires j < |mods|
    requires ViewModules(mods[..j]) == Ok(views)
    requires ModulesVisitOf(mvs, views)
    requires lines == ModulesOutput(Influx, stationName, mvs)
    modifies tags
    ensures tags[0] == "station=" + ToLower(stationName)
    ensures r.NoSuchField? ==> ViewModules(mods[..j + 1]) == NoSuchField(r.name)
    ensures r.Ok? ==> ViewModules(mods[..j + 1]) == Ok(views')
    ensures r.Ok? ==> ModulesVisitOf(mvs', views')
    ensures r.Ok? ==> r.value == ModulesOutput(Influx, stationName, mvs')
  {
    var ml, mv := LineModule(tags, stationName, mods[j]);
    if ml.NoSuchField? {
      ViewModulesStop(mods, j, views);
      return ml, views, mvs;
    }
    ghost var view := ViewModule(mods[j]).value;
    ViewModulesSnoc(mods, j, views, view);
    ModulesOutputSnoc(Influx, stationName, mvs, mv);
    ModulesVisitSnoc(mvs, views, mv, view);
    r := Ok(lines + ml.value);
    views' := views + [view];
    mvs' := mvs + [mv];
  }

  /** The module loop of linePrint for one station, its tag already in the first slot. */
  method LineModules(tags: array<string>, stationName: string, mods: seq<Device>)
    returns (r: Result<seq<string>>, ghost mvs: seq<ModuleVisit>)
    requires tags.Length == 2 && tags[0] == "station=" + ToLower(stationName)
    modifies tags
    ensures tags[0] == "station=" + ToLower(stationName)
    ensures r.NoSuchField? <==> ViewModules(mods).NoSuchField?
    ensures r.NoSuchField? ==> r.name == ViewModules(mods).name
    ensures r.Ok? ==> ModulesVisitOf(mvs, ViewModules(mods).value)
    ensures r.Ok? ==> r.value == ModulesOutput(Influx, stationName, mvs)
  {
    var lines: seq<string> := [];
    ghost var views: seq<ModuleView> := [];
    mvs := [];
    for j := 0 to |mods|
      invariant tags[0] == "station=" + ToLower(stationName)
      invariant ViewModules(mods[..j]) == Ok(views)
      invariant ModulesVisitOf(mvs, views)
      invariant lines == ModulesOutput(Influx, stationName, mvs)
    {
      var next;
      next, views, mvs := LineModulesStep(tags, stationName, mods, j, lines, views, mvs);
      if next.NoSuchField? {
        ViewModulesPersists(mods, j + 1);
        return next, mvs;
      }
      lines := next.value;
    }
    assert mods[..|mods|] == mods;
    r := Ok(lines);
  }

  /**
   * One pass of the station loop of linePrint: the station tag goes into
   * the first slot of the buffer, then the points of its modules.
   */
  method LineStation(tags: array<string>, station: Device) returns (r: Result<seq<string>>, ghost sv: StationVisit)
    requires tags.Length == 2
    modifies tags
    ensures tags[0] == "station=" + ToLower(station.stationName)
    ensures r.NoSuchField? <==> ViewStation(station).NoSuchField?
    ensures r.NoSuchField? ==> r.name == ViewStation(station).name
    ensures r.Ok? ==> StationVisitOf(sv, ViewStation(station).value)
    ensures r.Ok? ==> r.value == StationLines(Influx, sv)
  {
    tags[0] := "station=" + ToLower(station.stationName);
    var ml, mvs := LineModules(tags, station.stationName, station.Modules());
    sv := StationVisit(station.stationName, mvs);
    if ml.NoSuchField? {
      return NoSuchField(ml.name), sv;
    }
    r := Ok(ml.value);
  }

  /** The views of stations whose objects did not change are the same as before. */
  twostate lemma ViewStationsUnchanged(ss: seq<Device>)
    requires unchanged(ss)
    ensures ViewStations(ss) == old(ViewStations(ss))
    ensures 0 < |ss| ==> ViewStation(ss[|ss| - 1]) == old(ViewStation(ss[|ss| - 1]))
  {
  }

  /** The station loop of linePrint, one station further. */
  method LineStationsStep(tags: array<string>, stations: seq<Device>, i: nat, lines: seq<string>,
                          ghost views: seq<StationView>, ghost visits: seq<StationVisit>)
    returns (r: Result<seq<string>>, ghost views': seq<StationView>, ghost visits': seq<StationVisit>)
    requires tags.Length == 2
    requires i < |stations|
    requires ViewStations(stations[..i]) == Ok(views)
    requires VisitsOf(visits, views)
    requires lines == Output(Influx, visits)
    modifies tags
    ensures r.NoSuchField? ==> ViewStations(stations[..i + 1]) == NoSuchField(r.name)
    ensures r.Ok? ==> ViewStations(stations[..i + 1]) == Ok(views')
    ensures r.Ok? ==> VisitsOf(visits', views')
    ensures r.Ok? ==> r.value == Output(Influx, visits')
  {
    ghost var current := ViewStation(stations[i]);
    if current.Ok? {
      ViewStationsSnoc(stations, i, views, current.value);
    } else {
      ViewStationsStop(stations, i, views);
    }
    label before:
    var sl, sv := LineStation(tags, stations[i]);
    ViewStationsUnchanged@before(stations[..i + 1]);
    if sl.NoSuchField? {
      return sl, views, visits;
    }
    ghost var view := current.value;
    OutputSnoc(Influx, visits, sv);
    VisitsSnoc(visits, views, sv, view);
    r := Ok(lines + sl.value);
    views' := views + [view];
    visits' := visits + [sv];
  }

  /**
   * linePrint: an InfluxDB line-protocol point for every reading of every
   * module of every station, or the name of the first missing field. The
   * tag buffer is the two-element slice the stations and modules write
   * their tags into.
   */
  method LinePrint(devices: DeviceCollection) returns (r: Result<seq<string>>, ghost visits: seq<StationVisit>)
    ensures r.NoSuchField? <==> ViewStations(devices.Stations()).NoSuchField?
    ensures r.NoSuchField? ==> r.name == ViewStations(devices.Stations()).name
    ensures r.Ok? ==> VisitsOf(visits, ViewStations(devices.Stations()).value)
    ensures r.Ok? ==> r.value == Output(Influx, visits)
  {
    var tags := new string[2](_ => "");
    var stations := devices.Stations();
    var lines: seq<string> := [];
    ghost var views: seq<StationView> := [];
    visits := [];
    for i := 0 to |stations|
      invariant ViewStations(stations[..i]) == Ok(views)
      invariant VisitsOf(visits, views)
      invariant lines == Output(Influx, visits)
    {
      var next;
      next, views, visits := LineStationsStep(tags, stations, i, lines, views, visits);
      if next.NoSuchField? {
        ViewStationsPersists(stations, i + 1);
        return next, visits;
      }
      lines := next.value;
    }
    assert stations[..|stations|] == stations;
    r := Ok(lines);
  }

  // ---------------------------------------------------------------------
  // jsonPrint

  /** The JSON object of a module: each sensor name with its printed value. */
  function ModuleBlock(data: map<string, Value>): map<string, string>
  {
    map k | k in data :: ValueString(data[k])
  }

  /** The modules' names paired with their objects, in visiting order. */
  function ModulePairs(views: seq<ModuleView>): seq<(string, map<string, string>)>
  {
    seq(|views|, j requires 0 <= j < |views| => (views[j].name, ModuleBlock(views[j].data)))
  }

  /** The JSON object of a station: its modules by name, a later module overwriting an earlier one. */
  function StationBlock(views: seq<ModuleView>): map<string, map<string, string>>
  {
    Seqs.Assoc(ModulePairs(views))
  }

  /** The stations' names paired with their objects, in visiting order. */
  function StationPairs(views: seq<StationView>): seq<(string, map<string, map<string, string>>)>
  {
    seq(|views|, i requires 0 <= i < |views| => (views[i].name, StationBlock(views[i].modules)))
  }

  /** The JSON object jsonPrint marshals: the stations by name, a later station overwriting an earlier one. */
  function JsonBlock(views: seq<StationView>): map<string, map<string, map<string, string>>>
  {
    Seqs.Assoc(StationPairs(views))
  }

  /** One more module assigns its object under its name. */
  lemma StationBlockSnoc(views: seq<ModuleView>, v: ModuleView)
    ensures StationBlock(views + [v]) == StationBlock(views)[v.name := ModuleBlock(v.data)]
  {
    assert ModulePairs(views + [v])[..|views|] == ModulePairs(views);
  }

  /** One more station assigns its object under its name. */
  lemma JsonBlockSnoc(views: seq<StationView>, v: StationView)
    ensures JsonBlock(views + [v]) == JsonBlock(views)[v.name := StationBlock(v.modules)]
  {
    assert StationPairs(views + [v])[..|views|] == StationPairs(views);
  }

  /**
   * The reading loop of jsonPrint: every entry of `data` is assigned its
   * printed value. The object is the same whatever order the entries are
   * visited in.
   */
  method JsonRange(data: map<string, Value>) returns (mblock: map<string, string>)
    ensures mblock == ModuleBlock(data)
  {
    mblock := map[];
    var keys := data.Keys;
    while keys != {}
      invariant keys <= data.Keys
      invariant forall k :: k in mblock <==> k in data && k !in keys
      invariant forall k :: k in mblock ==> mblock[k] == ValueString(data[k])
      decreases keys
    {
      var k :| k in keys;
      mblock := mblock[k := ValueString(data[k])];
      keys := keys - {k};
    }
  }

  /** One pass of the module loop of jsonPrint: the module's object, or the field it lacks. */
  method JsonModule(m: Device) returns (r: Result<map<string, string>>)
    ensures r.NoSuchField? <==> ViewModule(m).NoSuchField?
    ensures r.NoSuchField? ==> r.name == ViewModule(m).name
    ensures r.Ok? ==> r.value == ModuleBlock(ViewModule(m).value.data)
  {
    var _, data := m.Data();
    if data.NoSuchField? {
      return NoSuchField(data.name);
    }
    var mblock := JsonRange(data.value);
    r := Ok(mblock);
  }

  /** The module loop of jsonPrint for one station: the station's object, or the first missing field. */
  method JsonModules(mods: seq<Device>) returns (r: Result<map<string, map<string, string>>>)
    ensures r.NoSuchField? <==> ViewModules(mods).NoSuchField?
    ensures r.NoSuchField? ==> r.name == ViewModules(mods).name
    ensures r.Ok? ==> r.value == StationBlock(ViewModules(mods).value)
  {
    var sblock: map<string, map<string, string>> := map[];
    ghost var views: seq<ModuleView> := [];
    for j := 0 to |mods|
      invariant ViewModules(mods[..j]) == Ok(views)
      invariant sblock == StationBlock(views)
    {
      var mblock := JsonModule(mods[j]);
      if mblock.NoSuchField? {
        ViewModulesStop(mods, j, views);
        ViewModulesPersists(mods, j + 1);
        return NoSuchField(mblock.name);
      }
      ghost var view := ViewModule(mods[j]).value;
      ViewModulesSnoc(mods, j, views, view);
      StationBlockSnoc(views, view);
      sblock := sblock[mods[j].moduleName := mblock.value];
      views := views + [view];
    }
    assert mods[..|mods|] == mods;
    r := Ok(sblock);
  }

  /**
   * jsonPrint: the object of every station by name, holding the object of
   * every module by name, holding every reading's printed value by sensor
   * name; or the name of the first missing field.
   */
  method JsonPrint(devices: DeviceCollection) returns (r: Result<map<string, map<string, map<string, string>>>>)
    ensures r.NoSuchField? <==> ViewStations(devices.Stations()).NoSuchField?
    ensures r.NoSuchField? ==> r.name == ViewStations(devices.Stations()).name
    ensures r.Ok? ==> r.value == JsonBlock(ViewStations(devices.Stations()).value)
  {
    var stations := devices.Stations();
    var block: map<string, map<string, map<string, string>>> := map[];
    ghost var views: seq<StationView> := [];
    for i := 0 to |stations|
      invariant ViewStations(stations[..i]) == Ok(views)
      invariant block == JsonBlock(views)
    {
      var station := stations[i];
      var sblock := JsonModules(station.Modules());
      if sblock.NoSuchField? {
        ViewStationsStop(stations, i, views);
        ViewStationsPersists(stations, i + 1);
        return NoSuchField(sblock.name);
      }
      ghost var view := ViewStation(station).value;
      ViewStationsSnoc(stations, i, views, view);
      JsonBlockSnoc(views, view);
      block := block[station.stationName := sblock.value];
      views := views + [view];
    }
    assert stations[..|stations|] == stations;
    r := Ok(block);
  }

  /** The top-level keys are the station names. */
  lemma JsonStationNames(views: seq<StationView>)
    ensures forall name :: name in JsonBlock(views) <==> exists i :: 0 <= i < |views| && views[i].name == name
  {
    var pairs := StationPairs(views);
    Seqs.AssocKeys(pairs);
    assert forall i :: 0 <= i < |views| ==> pairs[i].0 == views[i].name;
  }

  /** A station's keys are its module names. */
  lemma StationModuleNames(views: seq<ModuleView>)
    ensures forall name :: name in StationBlock(views) <==> exists j :: 0 <= j < |views| && views[j].name == name
  {
    var pairs := ModulePairs(views);
    Seqs.AssocKeys(pairs);
    assert forall j :: 0 <= j < |views| ==> pairs[j].0 == views[j].name;
  }

  /**
   * The printed value of a reading is found under its station, module and
   * sensor name, provided no later station and no later module of the
   * station reuse the name (a later one overwrites it).
   */
  lemma JsonReading(views: seq<StationView>, i: nat, j: nat, k: string)
    requires i < |views| && j < |views[i].modules| && k in views[i].modules[j].data
    requires forall i' :: i < i' < |views| ==> views[i'].name != views[i].name
    requires forall j' :: j < j' < |views[i].modules| ==> views[i].modules[j'].name != views[i].modules[j].name
    ensures views[i].name in JsonBlock(views)
    ensures JsonBlock(views)[views[i].name] == StationBlock(views[i].modules)
    ensures views[i].modules[j].name in StationBlock(views[i].modules)
    ensures StationBlock(views[i].modules)[views[i].modules[j].name] == ModuleBlock(views[i].modules[j].data)
    ensures ModuleBlock(views[i].modules[j].data)[k] == ValueString(views[i].modules[j].data[k])
  {
    var sp := StationPairs(views);
    assert forall i' :: 0 <= i' < |views| ==> sp[i'].0 == views[i'].name;
    Seqs.AssocLastWins(sp, i);
    var ms := views[i].modules;
    var mp := ModulePairs(ms);
    assert forall j' :: 0 <= j' < |ms| ==> mp[j'].0 == ms[j'].name;
    Seqs.AssocLastWins(mp, j);
  }

  /** A later station of the same name replaces an earlier one's object. */
  lemma JsonLaterStationWins(views: seq<StationView>, v: StationView)
    ensures JsonBlock(views + [v])[v.name] == StationBlock(v.modules)
  {
    JsonBlockSnoc(views, v);
  }
}
