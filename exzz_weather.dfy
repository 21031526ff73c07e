/**
 * The weather client library the program uses
 * (vendor/github.com/exzz/netatmo-api-go/weather.go): the device and
 * dashboard records, the association of modules with their stations
 * once a collection has been decoded, a station's module list, and the
 * extraction of sensor values named by a device's own data-type list.
 *
 * A device is an object: the association loop appends to the
 * `associatedModules` field of station objects in place. Every other
 * field is fixed once the collection is decoded, so it is a `const`.
 */
module ExzzWeather {
  import opened GoValue
  import Seqs

  /** The sensor values of a device (Go struct DashboardData). */
  datatype DashboardData = DashboardData(
    temperature: real,
    humidity: Int32,
    co2: Int32,
    noise: Int32,
    pressure: real,
    absolutePressure: real,
    rain: real,
    rain1Hour: real,
    rain1Day: real,
    windAngle: real,
    windStrength: real,
    gustAngle: real,
    gustStrengthfloat32: real,
    lastMesure: real)

  /** The Go field names of DashboardData, in declaration order. */
  const FieldNames: seq<string> := [
    "Temperature", "Humidity", "CO2", "Noise", "Pressure", "AbsolutePressure",
    "Rain", "Rain1Hour", "Rain1Day", "WindAngle", "WindStrength", "GustAngle",
    "GustStrengthfloat32", "LastMesure"]

  /**
   * What `reflect.ValueOf(d).FieldByName(name).Interface()` yields: the
   * field's value with its Go type (int32 fields as integers, float32 and
   * float64 fields as floats), or None where the struct has no such field.
   */
  function FieldByName(d: DashboardData, name: string): Option<Value>
  {
    match name
    case "Temperature" => Some(F(d.temperature))
    case "Humidity" => Some(I(d.humidity as int))
    case "CO2" => Some(I(d.co2 as int))
    case "Noise" => Some(I(d.noise as int))
    case "Pressure" => Some(F(d.pressure))
    case "AbsolutePressure" => Some(F(d.absolutePressure))
    case "Rain" => Some(F(d.rain))
    case "Rain1Hour" => Some(F(d.rain1Hour))
    case "Rain1Day" => Some(F(d.rain1Day))
    case "WindAngle" => Some(F(d.windAngle))
    case "WindStrength" => Some(F(d.windStrength))
    case "GustAngle" => Some(F(d.gustAngle))
    case "GustStrengthfloat32" => Some(F(d.gustStrengthfloat32))
    case "LastMesure" => Some(F(d.lastMesure))
    case _ => None
  }

  /**
   * Lookup succeeds exactly for the declared field names; the int32
   * fields give integers and every other field a float.
   */
  lemma FieldByNameSpec(d: DashboardData, name: string)
    ensures FieldByName(d, name).Some? <==> name in FieldNames
    ensures FieldByName(d, name).Some? ==> (FieldByName(d, name).value.I? <==> name in ["Humidity", "CO2", "Noise"])
    ensures FieldByName(d, name).Some? ==> (FieldByName(d, name).value.I? || FieldByName(d, name).value.F?)
  {
  }

  /**
   * The record has no field named "GustStrength" (its gust-strength field
   * is named GustStrengthfloat32), so that sensor name cannot be looked up.
   */
  lemma NoGustStrengthField(d: DashboardData)
    ensures FieldByName(d, "GustStrength") == None
    ensures FieldByName(d, "GustStrengthfloat32") == Some(F(d.gustStrengthfloat32))
  {
  }

  /**
   * The map Data() fills for the sensor names `names`, visited in order:
   * each name is mapped to its field, and the first name without a field
   * ends the extraction (Go panics there).
   */
  ghost function Extract(names: seq<string>, d: DashboardData): Result<map<string, Value>>
  {
    if names == [] then Ok(map[]) else
      match Extract(names[..|names| - 1], d)
      case NoSuchField(n) => NoSuchField(n)
      case Ok(m) =>
        var last := names[|names| - 1];
        match FieldByName(d, last)
        case None => NoSuchField(last)
        case Some(v) => Ok(m[last := v])
  }

  /** Extraction succeeds exactly when every name in the list is a field. */
  lemma {:induction false} ExtractSucceeds(names: seq<string>, d: DashboardData)
    ensures Extract(names, d).Ok? <==> forall i :: 0 <= i < |names| ==> FieldByName(d, names[i]).Some?
  {
    if names != [] {
      var init := names[..|names| - 1];
      ExtractSucceeds(init, d);
      assert forall i :: 0 <= i < |init| ==> init[i] == names[i];
    }
  }

  /**
   * A successful extraction has the names as its keys (duplicates
   * collapse) and maps each name to the value of that field.
   */
  lemma {:induction false} ExtractKeys(names: seq<string>, d: DashboardData)
    requires Extract(names, d).Ok?
    ensures forall k :: k in Extract(names, d).value <==> k in names
    ensures forall k :: k in Extract(names, d).value ==> FieldByName(d, k) == Some(Extract(names, d).value[k])
  {
    if names != [] {
      var init := names[..|names| - 1];
      ExtractKeys(init, d);
      assert names == init + [names[|names| - 1]];
    }
  }

  /** A failed extraction names the first name in the list that is not a field. */
  lemma {:induction false} ExtractFirstFailure(names: seq<string>, d: DashboardData)
    requires Extract(names, d).NoSuchField?
    ensures exists i ::
      && 0 <= i < |names| && names[i] == Extract(names, d).name && FieldByName(d, names[i]).None?
      && forall j :: 0 <= j < i ==> FieldByName(d, names[j]).Some?
  {
    var init := names[..|names| - 1];
    assert forall i :: 0 <= i < |init| ==> init[i] == names[i];
    if Extract(init, d).NoSuchField? {
      ExtractFirstFailure(init, d);
      var i :| 0 <= i < |init| && init[i] == Extract(init, d).name && FieldByName(d, init[i]).None? &&
        forall j :: 0 <= j < i ==> FieldByName(d, init[j]).Some?;
      assert names[i] == Extract(names, d).name;
    } else {
      ExtractSucceeds(init, d);
    }
  }

  /** An empty data-type list gives an empty map. */
  lemma ExtractEmpty(d: DashboardData)
    ensures Extract([], d) == Ok(map[])
  {
  }

  /** A device: a station or a module (Go struct Device). */
  class Device {
    const id: string
    const stationName: string
    const moduleName: string
    const deviceType: string
    const dashboardData: DashboardData
    const dataType: seq<string>
    const mainDevice: string
    var associatedModules: seq<Device>

    /** A device as the JSON decoder produces it: no modules associated yet. */
    constructor (id: string, stationName: string, moduleName: string, deviceType: string,
                 dashboardData: DashboardData, dataType: seq<string>, mainDevice: string)
      ensures this.id == id && this.stationName == stationName && this.moduleName == moduleName
      ensures this.deviceType == deviceType && this.dashboardData == dashboardData
      ensures this.dataType == dataType && this.mainDevice == mainDevice
      ensures associatedModules == []
    {
      this.id := id;
      this.stationName := stationName;
      this.moduleName := moduleName;
      this.deviceType := deviceType;
      this.dashboardData := dashboardData;
      this.dataType := dataType;
      this.mainDevice := mainDevice;
      associatedModules := [];
    }

    /** The station's associated modules followed by the station itself. */
    function Modules(): (r: seq<Device>)
      reads this
      ensures |r| == |associatedModules| + 1
      ensures r[..|r| - 1] == associatedModules
      ensures r[|r| - 1] == this
    {
      associatedModules + [this]
    }

    /**
     * The timestamp of the last measurement, and the value of every
     * sensor named in the device's data-type list; reading a name that is
     * not a field ends the extraction with that name.
     */
    method Data() returns (timestamp: int, r: Result<map<string, Value>>)
      ensures timestamp == TruncToInt(dashboardData.lastMesure)
      ensures r == Extract(dataType, dashboardData)
      ensures r.Ok? <==> forall i :: 0 <= i < |dataType| ==> FieldByName(dashboardData, dataType[i]).Some?
      ensures r.NoSuchField? ==> r.name in dataType && FieldByName(dashboardData, r.name).None?
      ensures r.Ok? ==> forall k :: k in r.value <==> k in dataType
      ensures r.Ok? ==> forall k :: k in r.value ==> FieldByName(dashboardData, k) == Some(r.value[k])
    {
      var m: map<string, Value> := map[];
      var i := 0;
      while i < |dataType|
        invariant 0 <= i <= |dataType|
        invariant Extract(dataType[..i], dashboardData) == Ok(m)
      {
        assert dataType[..i + 1][..i] == dataType[..i];
        var field := FieldByName(dashboardData, dataType[i]);
        if field.None? {
          ExtractFailurePersists(dataType, i + 1, dashboardData);
          assert dataType[..|dataType|] == dataType;
          ExtractSucceeds(dataType, dashboardData);
          return TruncToInt(dashboardData.lastMesure), NoSuchField(dataType[i]);
        }
        m := m[dataType[i] := field.value];
        i := i + 1;
      }
      assert dataType[..i] == dataType;
      ExtractSucceeds(dataType, dashboardData);
      ExtractKeys(dataType, dashboardData);
      timestamp := TruncToInt(dashboardData.lastMesure);
      r := Ok(m);
    }
  }

  /** Once a prefix of the names fails, the whole list fails with the same name. */
  lemma {:induction false} ExtractFailurePersists(names: seq<string>, n: nat, d: DashboardData)
    requires n <= |names|
    requires Extract(names[..n], d).NoSuchField?
    ensures Extract(names, d) == Extract(names[..n], d)
    decreases |names| - n
  {
    if n < |names| {
      assert names[..n + 1][..n] == names[..n];
      ExtractFailurePersists(names, n + 1, d);
    } else {
      assert names[..n] == names;
    }
  }

  /** The decoded response body (Go struct DeviceCollection, field Body). */
  datatype DeviceCollection = DeviceCollection(stations: seq<Device>, modules: seq<Device>)
  {
    /** The list of stations. */
    function Stations(): seq<Device>
    {
      stations
    }
  }

  /** The modules whose main device is `id`, in their order in `modules`. */
  function OwnedBy(modules: seq<Device>, id: string): seq<Device>
  {
    if modules == [] then [] else
      var rest := OwnedBy(modules[..|modules| - 1], id);
      var last := modules[|modules| - 1];
      if last.mainDevice == id then rest + [last] else rest
  }

  /**
   * A station owns exactly the modules that name it as main device; a
   * module that names no station is owned by none.
   */
  lemma {:induction false} OwnedByMembers(modules: seq<Device>, id: string)
    ensures forall m :: m in OwnedBy(modules, id) <==> m in modules && m.mainDevice == id
  {
    if modules != [] {
      OwnedByMembers(modules[..|modules| - 1], id);
      assert modules == modules[..|modules| - 1] + [modules[|modules| - 1]];
    }
  }

  /** Stations with different identifiers own disjoint module lists. */
  lemma OwnedByDisjoint(modules: seq<Device>, id1: string, id2: string)
    requires id1 != id2
    ensures forall m :: m in OwnedBy(modules, id1) ==> m !in OwnedBy(modules, id2)
  {
    OwnedByMembers(modules, id1);
    OwnedByMembers(modules, id2);
  }

  /** The owned modules keep the order they have in the module list. */
  lemma {:induction false} OwnedByOrder(modules: seq<Device>, id: string)
    ensures Seqs.IsSubsequence(OwnedBy(modules, id), modules)
  {
    if modules != [] {
      var init := modules[..|modules| - 1];
      OwnedByOrder(init, id);
      Seqs.SubsequenceExtend(OwnedBy(init, id), init, modules[|modules| - 1]);
      assert modules == init + [modules[|modules| - 1]];
    }
  }

  /**
   * The association loop of GetDeviceCollection: every module is appended
   * to every station whose identifier is the module's main device. Only
   * the stations' module lists change; the two lists themselves do not.
   * Decoding allocates each station afresh, so no station occurs twice.
   */
  method AssociateModules(dc: DeviceCollection)
    requires forall i, j :: 0 <= i < j < |dc.stations| ==> dc.stations[i] != dc.stations[j]
    modifies dc.stations
    ensures forall i :: 0 <= i < |dc.stations| ==>
      dc.stations[i].associatedModules ==
        old(dc.stations[i].associatedModules) + OwnedBy(dc.modules, dc.stations[i].id)
  {
    var i := 0;
    while i < |dc.stations|
      invariant 0 <= i <= |dc.stations|
      invariant forall k :: 0 <= k < i ==>
        dc.stations[k].associatedModules ==
          old(dc.stations[k].associatedModules) + OwnedBy(dc.modules, dc.stations[k].id)
      invariant forall k :: i <= k < |dc.stations| ==>
        dc.stations[k].associatedModules == old(dc.stations[k].associatedModules)
    {
      var station := dc.stations[i];
      var j := 0;
      while j < |dc.modules|
        invariant 0 <= j <= |dc.modules|
        invariant station.associatedModules ==
          old(station.associatedModules) + OwnedBy(dc.modules[..j], station.id)
        modifies station
      {
        assert dc.modules[..j + 1][..j] == dc.modules[..j];
        var m := dc.modules[j];
        if m.mainDevice == station.id {
          station.associatedModules := station.associatedModules + [m];
        }
        j := j + 1;
      }
      assert dc.modules[..j] == dc.modules;
      i := i + 1;
    }
  }
}
