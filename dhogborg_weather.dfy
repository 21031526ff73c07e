/**
 * The older weather client library vendored beside the active one
 * (vendor/github.com/dhogborg/netatmo-api-go/weather.go). Its devices
 * arrive with their modules already linked by the decoder, and the
 * sensors it extracts are fixed per device type by a static table,
 * NAModuleMap, rather than taken from the device's data-type list.
 *
 * Nothing here updates a device in place, so a device is a value.
 */
module DhogborgWeather {
  import opened GoValue

  /** The sensor values of a device (Go struct DashboardData). */
  datatype DashboardData = DashboardData(
    temperature: real,
    humidity: Int32,
    co2: Int32,
    noise: Int32,
    pressure: real,
    absolutePressure: real,
    rain: real,
    rain1Hour: real,
    rain1Day: real,
    windAngle: real,
    windStrength: real,
    gustAngle: real,
    gustStrength: real,
    lastMeasure: real)

  /** The Go field names of DashboardData, in declaration order. */
  const FieldNames: seq<string> := [
    "Temperature", "Humidity", "CO2", "Noise", "Pressure", "AbsolutePressure",
    "Rain", "Rain1Hour", "Rain1Day", "WindAngle", "WindStrength", "GustAngle",
    "GustStrength", "LastMeasure"]

  /**
   * What `reflect.ValueOf(d).FieldByName(name).Interface()` yields: the
   * field's value with its Go type, or None where there is no such field.
   */
  function FieldByName(d: DashboardData, name: string): Option<Value>
  {
    match name
    case "Temperature" => Some(F(d.temperature))
    case "Humidity" => Some(I(d.humidity as int))
    case "CO2" => Some(I(d.co2 as int))
    case "Noise" => Some(I(d.noise as int))
    case "Pressure" => Some(F(d.pressure))
    case "AbsolutePressure" => Some(F(d.absolutePressure))
    case "Rain" => Some(F(d.rain))
    case "Rain1Hour" => Some(F(d.rain1Hour))
    case "Rain1Day" => Some(F(d.rain1Day))
    case "WindAngle" => Some(F(d.windAngle))
    case "WindStrength" => Some(F(d.windStrength))
    case "GustAngle" => Some(F(d.gustAngle))
    case "GustStrength" => Some(F(d.gustStrength))
    case "LastMeasure" => Some(F(d.lastMeasure))
    case _ => None
  }

  /**
   * Lookup succeeds exactly for the declared field names; the int32
   * fields (Humidity, CO2, Noise) give integers, every other one a float.
   */
  lemma FieldByNameSpec(d: DashboardData, name: string)
    ensures FieldByName(d, name).Some? <==> name in FieldNames
    ensures FieldByName(d, name).Some? ==> (FieldByName(d, name).value.I? <==> name in ["Humidity", "CO2", "Noise"])
    ensures FieldByName(d, name).Some? ==> (FieldByName(d, name).value.I? || FieldByName(d, name).value.F?)
  {
  }

  // Main module
  const NAMainTemperature: string := "Temperature"
  const NAMainHumidity: string := "Humidity"
  const NAMainCO2: string := "CO2"
  const NAMainNoise: string := "Noise"
  const NAMainPressure: string := "Pressure"
  const NAMainAbsolutePressure: string := "AbsolutePressure"

  // Outdoor module
  const NAModule1Temperature: string := "Temperature"
  const NAModule1Humidity: string := "Humidity"

  // Wind module
  const NAModule2WindAngle: string := "WindAngle"
  const NAModule2WindStrength: string := "WindStrength"
  const NAModule2GustAngle: string := "GustAngle"
  const NAModule2GustStrength: string := "GustStrength"

  // Rain module
  const NAModule3Rain: string := "Rain"
  const NAModule3Rain1Hour: string := "Rain1Hour"
  const NAModule3Rain1Day: string := "Rain1Day"

  // Aux Indoor module
  const NAModule4Temperature: string := "Temperature"
  const NAModule4Humidity: string := "Humidity"
  const NAModule4CO2: string := "CO2"

  /** The sensors each device type carries. */
  const NAModuleMap: map<string, seq<string>> := map[
    "NAMain" := [NAMainTemperature, NAMainHumidity, NAMainCO2, NAMainNoise, NAMainPressure, NAMainAbsolutePressure],
    "NAModule1" := [NAModule1Temperature, NAModule1Humidity],
    "NAModule2" := [NAModule2WindAngle, NAModule2WindStrength, NAModule2GustAngle, NAModule2GustStrength],
    "NAModule3" := [NAModule3Rain, NAModule3Rain1Hour, NAModule3Rain1Day],
    "NAModule4" := [NAModule4Temperature, NAModule4Humidity, NAModule4CO2]]

  /** Every sensor the table lists names a field, so table-driven lookup never fails. */
  lemma ModuleMapNamesAreFields(t: string, d: DashboardData)
    requires t in NAModuleMap
    ensures forall n :: n in NAModuleMap[t] ==> FieldByName(d, n).Some?
  {
    assert t in {"NAMain", "NAModule1", "NAModule2", "NAModule3", "NAModule4"};
  }

  /**
   * The values Data() extracts for a device of type `t`: the field of
   * every sensor the table lists for `t`, nothing for an unknown type.
   */
  ghost function TableData(t: string, d: DashboardData): map<string, Value>
  {
    if t in NAModuleMap then
      map n | n in NAModuleMap[t] && FieldByName(d, n).Some? :: FieldByName(d, n).value
    else map[]
  }

  /** A device: a station, or a module linked to one (Go struct Device). */
  datatype Device = Device(
    id: string,
    stationName: string,
    moduleName: string,
    deviceType: string,
    dashboardData: DashboardData,
    dataType: seq<string>,
    linkedModules: seq<Device>)
  {
    /** The linked modules followed by the device itself. */
    function Modules(): (r: seq<Device>)
      ensures |r| == |linkedModules| + 1
      ensures r[..|r| - 1] == linkedModules
      ensures r[|r| - 1] == this
    {
      linkedModules + [this]
    }

    /**
     * The timestamp of the last measurement, and the value of every
     * sensor the table lists for the device's type. The result depends
     * on the type and the dashboard record only: the device's own
     * data-type list plays no part.
     */
    method Data() returns (timestamp: int, m: map<string, Value>)
      ensures timestamp == TruncToInt(dashboardData.lastMeasure)
      ensures m == TableData(deviceType, dashboardData)
      ensures deviceType in NAModuleMap ==> forall n :: n in m <==> n in NAModuleMap[deviceType]
      ensures deviceType !in NAModuleMap ==> m == map[]
      ensures forall n :: n in m ==> FieldByName(dashboardData, n) == Some(m[n])
    {
      m := map[];
      if deviceType in NAModuleMap {
        var moduleMap := NAModuleMap[deviceType];
        ModuleMapNamesAreFields(deviceType, dashboardData);
        for i := 0 to |moduleMap|
          invariant forall n :: n in m <==> n in moduleMap[..i]
          invariant forall n :: n in m ==> FieldByName(dashboardData, n) == Some(m[n])
        {
          var dt := moduleMap[i];
          assert moduleMap[..i + 1] == moduleMap[..i] + [dt];
          m := m[dt := FieldByName(dashboardData, dt).value];
        }
        assert moduleMap[..|moduleMap|] == moduleMap;
      }
      timestamp := TruncToInt(dashboardData.lastMeasure);
    }
  }

  /** The key set of Data() for each known device type, written out. */
  lemma ModuleMapContents()
    ensures NAModuleMap.Keys == {"NAMain", "NAModule1", "NAModule2", "NAModule3", "NAModule4"}
    ensures NAModuleMap["NAMain"] == ["Temperature", "Humidity", "CO2", "Noise", "Pressure", "AbsolutePressure"]
    ensures NAModuleMap["NAModule1"] == ["Temperature", "Humidity"]
    ensures NAModuleMap["NAModule2"] == ["WindAngle", "WindStrength", "GustAngle", "GustStrength"]
    ensures NAModuleMap["NAModule3"] == ["Rain", "Rain1Hour", "Rain1Day"]
    ensures NAModuleMap["NAModule4"] == ["Temperature", "Humidity", "CO2"]
  {
  }

  /** The decoded response body (Go struct DeviceCollection, field Body). */
  datatype DeviceCollection = DeviceCollection(devices: seq<Device>)
  {
    /** The list of devices. */
    function Devices(): seq<Device>
    {
      devices
    }

    /** An alias of Devices. */
    function Stations(): seq<Device>
    {
      Devices()
    }
  }
}
