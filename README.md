# atnetgo, modelled in Dafny

atnetgo is a command-line tool. It fetches the weather stations of a
Netatmo account and prints their latest sensor readings in one of four
formats:
- a greppable list;
- an indented "pretty" listing;
- InfluxDB line protocol;
- a nested JSON object.

This project models the part of the tool that runs after the device
collection has been decoded, and proves properties of that model.

- **Association** (`ExzzWeather`). The active weather library sets each
  station's `AssociatedModules` in place. It appends every module to every
  station whose identifier is the module's main device. A station's
  `Modules()` is that list with the station itself appended.
- **Extraction** (`ExzzWeather.Device.Data`). `Data()` looks up every
  name of the device's data-type list as a field of its dashboard record.
  A name that is not a field makes Go panic. In the model it ends the
  extraction with that name as an error result.
- **The older library** (`DhogborgWeather`). This variant is vendored but
  not used. Its `Data()` takes the sensor names from the static table
  `NAModuleMap`, keyed by device type.
- **The station filter** (`Atnetgo.FilterDevices`). A non-empty filter
  keeps, in order, the stations whose name contains it.
- **The value formatting** (`ValueString`, `TypeSuffix`, `TagString`,
  `InfluxLine`) and **the four formatters**. `ListPrint`, `PrettyPrint` and
  `LinePrint` return the lines they would print. `JsonPrint` returns the
  nested map it would marshal. A module is always printed under its own
  `ModuleName`, even when that is empty. The station's own entry has no
  fallback to the station name (main.go:150, 184, 168, 214).
- **Go support** (`GoValue`, `GoStrings`, `GoFmt`, `Seqs`). These modules
  model the Go library pieces the code relies on: `interface{}` values,
  `int32` and the truncating `int(x)` conversion, `strings.ToLower` /
  `Index` / `Replace` / `Join`, and the `%d` and `%0.2f` verbs.

Go visits the entries of a map in an unspecified order. A formatter
method therefore also returns, as a ghost result, the order in which it
visited each module's readings. Its lines are stated for that order. The
lemmas `OutputCoversReadings`, `OutputLength` and `OutputPerm` then state
what holds whatever the order:
- every reading is printed;
- the formatter prints exactly as many lines as stated;
- two runs print the same multiset of lines.

The JSON object does not depend on the order at all.

## Model

| member | source | states |
|---|---|---|
| ExzzWeather.FieldByNameSpec | vendor/github.com/exzz/netatmo-api-go/weather.go:98-113 | field lookup succeeds exactly for the fourteen declared field names; the int32 fields Humidity, CO2, Noise give integers, every other field a float |
| ExzzWeather.NoGustStrengthField | vendor/github.com/exzz/netatmo-api-go/weather.go:111 | the record has no field "GustStrength" (only "GustStrengthfloat32"), so that sensor name cannot be looked up |
| ExzzWeather.ExtractSucceeds | vendor/github.com/exzz/netatmo-api-go/weather.go:242-245 | extraction succeeds iff every name of the data-type list is a field |
| ExzzWeather.ExtractKeys | vendor/github.com/exzz/netatmo-api-go/weather.go:242-245 | a successful extraction has exactly the listed names as keys (duplicates collapse), each mapped to the field of that name |
| ExzzWeather.ExtractFirstFailure | vendor/github.com/exzz/netatmo-api-go/weather.go:243-244 | a failed extraction reports the first listed name that is not a field, every name before it being a field |
| ExzzWeather.ExtractEmpty | vendor/github.com/exzz/netatmo-api-go/weather.go:242-245 | an empty data-type list gives the empty map |
| ExzzWeather.ExtractFailurePersists | vendor/github.com/exzz/netatmo-api-go/weather.go:243-244 | once a prefix of the names fails, the whole list fails with the same name |
| ExzzWeather.Device.constructor | vendor/github.com/exzz/netatmo-api-go/weather.go:72-81 | a decoded device has the given fields and no associated modules yet |
| ExzzWeather.Device.Modules | vendor/github.com/exzz/netatmo-api-go/weather.go:232-237 | the associated modules followed by the station: one longer, prefix equal to the associated modules, the station itself last |
| ExzzWeather.Device.Data | vendor/github.com/exzz/netatmo-api-go/weather.go:240-248 | returns the truncated timestamp and either the map of every listed name to its field (keys exactly the listed names) or the name of a missing field; changes nothing |
| ExzzWeather.OwnedByMembers | vendor/github.com/exzz/netatmo-api-go/weather.go:215-218 | a station owns exactly the modules whose main device is its identifier; a module naming no station's identifier is owned by none |
| ExzzWeather.OwnedByDisjoint | vendor/github.com/exzz/netatmo-api-go/weather.go:214-218 | stations with different identifiers own no module in common |
| ExzzWeather.OwnedByOrder | vendor/github.com/exzz/netatmo-api-go/weather.go:215-218 | the owned modules keep their order in the module list |
| ExzzWeather.AssociateModules | vendor/github.com/exzz/netatmo-api-go/weather.go:213-220 | every station's module list becomes its old list followed by the modules it owns, in module order; only the stations' module lists change |
| DhogborgWeather.FieldByNameSpec | vendor/github.com/dhogborg/netatmo-api-go/weather.go:88-103 | field lookup succeeds exactly for the declared field names; Humidity, CO2, Noise give integers, every other field a float |
| DhogborgWeather.ModuleMapNamesAreFields | vendor/github.com/dhogborg/netatmo-api-go/weather.go:105-172 | every sensor name the table lists for a device type names a field, so table-driven lookup never fails |
| DhogborgWeather.ModuleMapContents | vendor/github.com/dhogborg/netatmo-api-go/weather.go:105-134 | the table's five device types and the sensor names listed for each |
| DhogborgWeather.Device.Modules | vendor/github.com/dhogborg/netatmo-api-go/weather.go:286-291 | the linked modules followed by the device: one longer, prefix equal to the linked modules, the device itself last |
| DhogborgWeather.Device.Data | vendor/github.com/dhogborg/netatmo-api-go/weather.go:294-304 | the truncated timestamp always; for a known type a map whose keys are exactly the table's names for that type, each mapped to its field; for an unknown type the empty map; the data-type list plays no part |
| Atnetgo.MatchesFilter | main.go:141-143 | a station matches iff the filter occurs in its name, case-sensitively |
| Atnetgo.MatchingMembers | main.go:129-135 | a station is kept iff it is in the list and its name contains the filter |
| Atnetgo.MatchingOrder | main.go:129-135 | the kept stations are a subsequence of the station list (order preserved) |
| Atnetgo.MatchingNone | main.go:129-135 | a filter no station name contains keeps nothing |
| Atnetgo.MatchingEmptyFilter | main.go:128-136 | filtering by the empty string would keep every station, so skipping the filter for "" changes nothing |
| Atnetgo.FilterDevices | main.go:122-139 | the module list is unchanged; an empty filter keeps the station list unchanged, a non-empty one keeps the matching stations in order |
| Atnetgo.ValueStringSpec | main.go:226-237 | strings verbatim; integers in decimal that reads back as the integer; floats with two decimals that read back to within half a hundredth; anything else as "-"; only a string can be printed as nothing |
| Atnetgo.ValueStringExamples | main.go:226-237 | sample renderings of a float, an integer, a string and another value |
| GoFmt.FormatIntRoundTrip | main.go:233 | `%d` output parses back to the integer |
| GoFmt.FormatFixed2Accurate | main.go:229 | `%0.2f` output parses back to the value rounded half-to-even to hundredths, within half a hundredth of the value |
| Atnetgo.TypeSuffix | main.go:196-206 | the suffix is "i" iff the lower-cased type is co2, humidity or noise, and "" otherwise |
| Atnetgo.TypeSuffixIgnoresCase | main.go:202 | the suffix of a lower-cased type is the suffix of the type |
| Atnetgo.TypeSuffixMatchesFieldKind | main.go:196-206 | for every dashboard field, the integer marker is written iff the field's value is an integer |
| Atnetgo.TagStringShape | main.go:208-219 | the tag set is `station=<name>,module=<name>`, each name lower-cased with spaces replaced by underscores, and contains no space |
| Atnetgo.InfluxLineShape | main.go:217-220 | a line-protocol line is the lower-cased type, the tag set, ` value=`, the printed value and the type suffix |
| Atnetgo.InfluxLineExample | main.go:220 | a sample humidity reading of module "Outdoor" of station "My Station" prints as `humidity,station=my_station,module=outdoor value=55i` |
| Atnetgo.ViewModulesSpec | main.go:147-148 | the views of a station's modules succeed iff every module's extraction does, and then hold each module's name and readings in order; a failure names a field some module lacks |
| Atnetgo.ViewStationsSpec | main.go:146-147 | successful views hold, for each station in order, its name and the views of its modules |
| Atnetgo.ViewStationsFailure | main.go:146-148 | the first failing extraction, in station and module order, decides the failure of the whole collection |
| Atnetgo.RangeData | main.go:149-151 | the reading loop visits every entry of the map exactly once and prints a line per entry, in the order visited |
| Atnetgo.PrintModule | main.go:147-152 | one module: its header in the pretty format, then a line per reading; or the name of the missing field |
| Atnetgo.PrintModules | main.go:147-152 | a station's modules' lines in order, or the first missing field |
| Atnetgo.PrintStation | main.go:181-189 | one station: its header in the pretty format, then its modules' lines; or the first missing field |
| Atnetgo.PrintStations | main.go:146-153 | every station's lines in order, or the first missing field |
| Atnetgo.ListPrint | main.go:145-154 | fails iff some extraction fails, naming the first missing field; otherwise prints a `station: module: type: value` line for every reading, in station, module and visiting order |
| Atnetgo.PrettyPrint | main.go:180-191 | fails iff some extraction fails; otherwise a `Station: ` header per station, a tab-indented header per module and a two-tab-indented line per reading, in order |
| Atnetgo.OutputCoversReadings | main.go:145-154 | whatever the visiting order, every reading of every module of every station is printed |
| Atnetgo.OutputLength | main.go:180-191 | the list and line-protocol formats print exactly one line per reading; the pretty format adds one header per station and one per module |
| Atnetgo.VisitOrderPerm | main.go:149 | two visiting orders of the same map visit the same readings |
| Atnetgo.ReadingLinesPerm | main.go:186-187 | reordering the readings reorders their lines and nothing else |
| Atnetgo.OutputPerm | main.go:145-154 | two runs over the same stations print the same lines, each as often, whatever their visiting orders |
| Atnetgo.RangeTags | main.go:217-221 | for every entry, the tag set joined afresh from the buffer with spaces replaced, and the line-protocol point printed |
| Atnetgo.LineModule | main.go:213-222 | the module tag goes into the buffer's second slot, then a point per reading; or the missing field |
| Atnetgo.LineModules | main.go:213-222 | a station's modules' points in order, the station tag staying in the first slot; or the first missing field |
| Atnetgo.LineStation | main.go:210-223 | the station tag goes into the buffer's first slot, then its modules' points; or the first missing field |
| Atnetgo.LinePrint | main.go:193-224 | fails iff some extraction fails; otherwise a line-protocol point for every reading, in station, module and visiting order |
| Atnetgo.JsonRange | main.go:165-167 | the module's object maps every sensor name to its printed value, whatever the visiting order |
| Atnetgo.JsonModule | main.go:163-167 | one module's object, or the missing field |
| Atnetgo.JsonModules | main.go:161-169 | a station's object: its modules by name, a later module overwriting an earlier one; or the first missing field |
| Atnetgo.JsonPrint | main.go:156-171 | fails iff some extraction fails; otherwise the stations by name, each holding its modules by name, each holding its printed readings by sensor name |
| Atnetgo.JsonStationNames | main.go:160-171 | the top-level keys are exactly the station names |
| Atnetgo.StationModuleNames | main.go:161-169 | a station's keys are exactly its module names |
| Atnetgo.JsonReading | main.go:158-171 | a reading's printed value is found under its station, module and sensor name unless a later station or module reuses the name |
| Atnetgo.JsonLaterStationWins | main.go:170 | a later station of the same name replaces the object of an earlier one |

## Left out

- OAuth2 token acquisition, the HTTP helpers, `processHTTPResponse` and
  JSON decoding of the response are network I/O. The model starts from a
  decoded collection.
- The command-line framework, flags, environment variables, logging and
  `os.Exit` are glue around the formatters.
- The `json.Marshal` step of jsonPrint and its panic path belong to the
  library encoder. The model stops at the nested map that would be
  marshalled.
- Writing to standard output is left out. Each line-producing formatter
  returns its lines. When an extraction panics, the lines Go would have
  printed before the panic are not returned, only the missing field's
  name.
- Go reflection is replaced by an explicit table from field name to
  field, one per dashboard record.
- A float is carried as its exact real value, so NaN, infinities and
  float32 rounding are not modelled. `%0.2f` renders the exact value
  rounded half-to-even.
- The float64-to-int conversion of the timestamp is not modelled for
  values outside the range of `int`.
- `strings.ToLower` is modelled for ASCII letters only.
- The Go map iteration order is not fixed. It is the ghost visiting order
  each formatter method returns, constrained to visit every entry once.
- Slice-append aliasing of backing arrays is a runtime detail and is not
  modelled.
- ExzzWeather.AssociateModules: requires that no station object occurs
  twice in the station list, which the decoder guarantees by allocating
  each station afresh.
- The vendored library's `Device` is modelled as a value rather than an
  object, because nothing changes it in place; pointer identity of its
  devices is therefore not modelled.
- The exzz dashboard record names its gust-strength field
  `GustStrengthfloat32` and its timestamp field `LastMesure`. This is
  modelled as written, so a data-type list naming "GustStrength" fails the
  extraction (ExzzWeather.NoGustStrengthField).
- `strings.Replace` is modelled for a one-character pattern and
  replacement only, which is the only way the program calls it.
