# PC System Monitor — telemetry core in Dafny

This project models the telemetry logic of the PC System Monitor desktop app:

- The hardware reader's getters. Each getter tries its sources in a fixed order:
  - the LibreHardwareMonitor sensor tree;
  - WMI queries;
  - the performance counters;
  - the memory-status call.

  Every error is swallowed, and when all sources fail the getter returns "no data" (null, "—" or 0).
- The main window's rolling 30-sample histories and their averages.
- The main window's per-tick state: the `gotData` latch, and the timer that stops on the first exception.
- The pinned-sensors window's key list and gauges.
- The round gauge's clamp, sweep angle and large-arc flag.

The sources are not called. Each one is an input value:

- The sensor tree is a `seq<Hardware>`. Each hardware has a kind, a name that may be null, a flag saying whether `Update()` returns normally, and its sensors.
- A WMI query is `Ok(records)`, or `Error` when the searcher throws. The getters that stop at their first match lose nothing by this: a throw after the match is never reached, and a throw before it gives the same result as `Error`.
- The memory-module query collects every record, so its input is a `Listing`: the records yielded, then whether the enumeration threw.
- The two performance counters and the `GlobalMemoryStatusEx` call are `Result` values.

Each getter is then a pure function of these inputs. Its contract states the priority order, the defaults and the unit arithmetic.

Layout, one module per file:

- `wrappers.dfy`: `Option` and `Result`.
- `search.dfy`: the first-match loop every getter uses (`FirstOrDefault`, or a `foreach` with `break`/`return` inside a `try`). It is characterised once as `Search.Scan`.
- `text.dfy`: the .NET string operations the getters rely on (case mapping, `Contains`, the null/blank tests, `int` formatting).
- `rounding.dfy`: `Math.Round` to 0 and 1 decimals.
- `stats.dfy`: sums and means.
- `sources.dfy`: the hardware tree, the WMI records and the `Convert` range checks.
- `cpu_reader.dfy`, `temperature_reader.dfy`, `memory_reader.dfy`, `gpu_reader.dfy`: the getters of `Services/HardwareReader.cs`.
- `history.dfy` and `monitor.dfy`: `MainWindow.xaml.cs`.
- `pins.dfy`: `PinnedWindow.xaml.cs`.
- `circular_progress.dfy`: `Controls/CircularProgress.xaml.cs`.

Numbers are `real`, with two exceptions. WMI integer properties are `int`, with `Convert.ToInt32`/`ToUInt32`/`ToUInt64` as range checks that fail (throw) outside the target type. Integer megabyte divisions are on `nat`.

`Math.Round(x, 1)` is defined as .NET's default midpoint rule (round half to even), applied exactly to the real `10·x`. Apart from the concrete examples (`TemperatureReader.AcpiExample` shows the tie rule at 26.85), the proofs use only its general properties, which are proved in `rounding.dfy`:

- it lies within 0.05 of `x`;
- it is monotone;
- it is exact on tenths;
- it maps [0, 100] into [0, 100].

Two behaviours of the code worth noting:

- The second CPU-temperature stage runs when the first stage added no entry at all (`temps.Count == 0`), not when it found no value. An entry with a null value counts.
- The GPU keyword list has nine entries, including "hd graphics". `GpuReader.HdGraphicsRedundant` proves that this entry never changes a match, because "graphics" is also in the list.

## Model

| member | source | states |
|---|---|---|
| Search.Scan | Services/HardwareReader.cs:74-79 | The first element whose step does not continue decides: a stop returns its value, a throw ends the loop. The loop runs out exactly when every element continues. |
| CpuReader.GetCpuLoad | Services/HardwareReader.cs:70-88 | The first CPU hardware whose first "total" load sensor has a value decides, rounded to one decimal. When none does, the counter's value is used, rounded. The result is null exactly when the sensor stage finds nothing and the counter fails. |
| CpuReader.CpuLoadFromFirstCpu | Services/HardwareReader.cs:74-78 | The first CPU with a valued total-load sensor gives the load, whatever the counter reads. |
| CpuReader.CpuLoadWithoutCpuUsesCounter | Services/HardwareReader.cs:82-87 | Without CPU hardware the result is the rounded counter value, or null when the counter fails. |
| CpuReader.CpuLoadUpdateFailureFallsBack | Services/HardwareReader.cs:72-86 | A CPU whose `Update()` throws ends the sensor stage, so the counter decides even if a later CPU could answer. |
| CpuReader.FromProcessor | Services/HardwareReader.cs:170-176 | The name is the record's, or "—". The counters are converted in order and the first one that fails ends the assignments: each counter holds the record's value (or 0 when absent) exactly when it and every counter before it convert, and stays 0 otherwise. |
| CpuReader.GetCpuDetails | Services/HardwareReader.cs:161-189 | Every counter comes from the first processor record. A present WMI name is kept. Otherwise the first CPU whose `Update()` succeeds gives its non-null name. With no such CPU the name is unchanged. |
| CpuReader.CpuDetailsUsesFirstRecordOnly | Services/HardwareReader.cs:168-176 | Records after the first never change the result. |
| CpuReader.CpuDetailsQueryFailure | Services/HardwareReader.cs:163-180 | When the processor query throws, every counter is 0. |
| TemperatureReader.AcpiCelsiusRoundTrip | Services/HardwareReader.cs:365-366 | The thermal-zone conversion `raw/10 − 273.15` and its inverse undo each other. |
| TemperatureReader.AcpiExample | Services/HardwareReader.cs:366-367 | 3000 tenths of a kelvin is 26.85 °C, and the midpoint rule rounds it to 26.8. |
| TemperatureReader.GetCpuTempFromWmi | Services/HardwareReader.cs:354-374 | The first thermal zone with a non-null reading gives the result, converted and rounded. The result is null exactly when the query throws or every zone is null. |
| Sources.TemperatureSensorsInOrder | Services/HardwareReader.cs:105 | The temperature filter keeps sensor order: the sensors kept from `ss + more` are those kept from `ss` followed by those kept from `more`. |
| Sources.TemperatureSensorsOne | Services/HardwareReader.cs:105 | A single sensor is kept once exactly when it is a temperature sensor, and dropped otherwise. |
| TemperatureReader.CpuStageReadings | Services/HardwareReader.cs:96-112 | The first stage lists (name or "Temp", rounded value) for exactly the temperature sensors of CPU-like hardware that updates. It collects nothing exactly when no such hardware has a temperature sensor. |
| TemperatureReader.CpuStageReadingsInOrder | Services/HardwareReader.cs:96-112 | The first stage keeps hardware order: the readings of `hw + more` are those of `hw` followed by those of `more`. |
| TemperatureReader.CpuStageReadingsOne | Services/HardwareReader.cs:96-112 | A single hardware contributes to the first stage the entries of its temperature sensors, one per sensor in the filter's order, when it is CPU-like and updates, and nothing otherwise. |
| TemperatureReader.CpuStageName | Services/HardwareReader.cs:94-104 | The name is the fallback, or the non-empty name of some CPU-like hardware that updated. |
| TemperatureReader.CpuStageNameLastWins | Services/HardwareReader.cs:96-104 | The last CPU-like hardware with a non-empty name gives the name. |
| TemperatureReader.CpuStageNameUnchanged | Services/HardwareReader.cs:94-104 | Without a named CPU-like hardware the fallback "CPU" stays. |
| TemperatureReader.KeywordSensors | Services/HardwareReader.cs:116-125 | The keyword stage keeps exactly the temperature sensors whose lower-cased name contains core, package, cpu, celsius or tctl. |
| TemperatureReader.KeywordSensorsInOrder | Services/HardwareReader.cs:122-128 | The keyword filter keeps sensor order: the sensors kept from `ss + more` are those kept from `ss` followed by those kept from `more`. |
| TemperatureReader.KeywordSensorsOne | Services/HardwareReader.cs:122-128 | A single sensor is kept once exactly when it is a temperature sensor matching a keyword, and dropped otherwise. |
| TemperatureReader.KeywordStageReadings | Services/HardwareReader.cs:114-135 | The keyword stage lists (name or "Temp", rounded value) for exactly the keyword-matching temperature sensors of hardware that updates. It collects nothing exactly when there are none. |
| TemperatureReader.KeywordStageReadingsInOrder | Services/HardwareReader.cs:114-135 | The keyword stage keeps hardware order: the readings of `hw + more` are those of `hw` followed by those of `more`. |
| TemperatureReader.KeywordStageReadingsOne | Services/HardwareReader.cs:114-135 | A single hardware contributes to the keyword stage the entries of its keyword sensors, one per sensor in the filter's order, when it updates, and nothing otherwise. |
| TemperatureReader.KeywordStageNameNeverRenames | Services/HardwareReader.cs:129 | The rename in the keyword stage can never fire, because the name it tests is never empty. |
| TemperatureReader.PresentValues | Services/HardwareReader.cs:143-148 | Each value occurs among the averaged values exactly as often as readings carry it. The averaged values are empty exactly when no reading has a value. |
| TemperatureReader.PresentValueFromReading | Services/HardwareReader.cs:145-147 | Every averaged value is some reading's value. |
| TemperatureReader.LoopMatchesPresent | Services/HardwareReader.cs:143-148 | The loop's `sum` and `cnt` are the sum and the number of the present values. |
| TemperatureReader.TemperatureAverage | Services/HardwareReader.cs:143-149 | The average is `Math.Round(sum / cnt, 1)` of the loop that adds each present value and counts it, and null when the count is 0. It is null exactly when no reading has a value. |
| TemperatureReader.TemperatureAverageWithin | Services/HardwareReader.cs:143-149 | The average lies between the rounded bounds of the values. |
| TemperatureReader.TemperatureAverageConstant | Services/HardwareReader.cs:143-149 | Readings that all agree average to that value, rounded. |
| TemperatureReader.GetCpuTemperatures | Services/HardwareReader.cs:90-151 | The CPU stage wins when it collects anything. The keyword stage runs only when the CPU stage collects nothing. The thermal zone is used only when both collect nothing. The average is the rounded mean of the returned readings' present values, and null exactly when none has a value. The name is the one the first stage leaves: the last CPU-like, updating hardware with a non-empty name, or "CPU" when there is none. |
| TemperatureReader.WmiOnlyAverage | Services/HardwareReader.cs:137-149 | When only the thermal zone answers, the readings are ("WMI", t) and the average is t rounded. |
| TemperatureReader.GetAllTemperatureSensors | Services/HardwareReader.cs:376-396 | Every temperature sensor of every hardware that updates is listed, and nothing else is. |
| TemperatureReader.GetAllTemperatureSensorsInOrder | Services/HardwareReader.cs:380-390 | The list keeps hardware order: the entries of `hw + more` are those of `hw` followed by those of `more`. |
| TemperatureReader.GetAllTemperatureSensorsOne | Services/HardwareReader.cs:380-390 | A single hardware contributes one entry per temperature sensor, in the filter's order, when it updates, and nothing when it throws. |
| MemoryReader.GetRamInfo | Services/HardwareReader.cs:191-237 | A successful first status call wins. Otherwise the counter and a second status call are used, when both succeed. Otherwise the sensor path decides. The percent is null only for the (null, 0, 0) result. |
| MemoryReader.SensorPath | Services/HardwareReader.cs:219-236 | The first updating memory hardware with both a valued "total" and a valued "used" data sensor decides. Without one the result is (null, 0, 0). |
| MemoryReader.SensorPathHasPercent | Services/HardwareReader.cs:226-231 | Every result of the sensor path carries a percentage. |
| MemoryReader.SensorPathIsRaw | Services/HardwareReader.cs:228-231 | The sensor path reports the raw total and total − used, with no unit conversion. |
| MemoryReader.CounterPathNeedsSecondCall | Services/HardwareReader.cs:195-215 | When both status calls give the same outcome, the counter never affects the result. |
| MemoryReader.AllSourcesFail | Services/HardwareReader.cs:219-236 | With every source failing and no memory hardware, the result is (null, 0, 0). |
| MemoryReader.StatusPercentWithinRange | Services/HardwareReader.cs:195-200 | With available ≤ total, the percent is within [0, 100] and free ≤ total. |
| MemoryReader.HalfUsedExample | Services/HardwareReader.cs:196-199 | 16384 MB total with 8192 MB free is 50 % used. |
| MemoryReader.MemoryTypeName | Services/HardwareReader.cs:266-276 | 20, 21, 24 and 26 map to DDR, DDR2, DDR3 and DDR4. Any other code maps to "Тип " followed by the code. |
| MemoryReader.UnknownTypeRoundTrip | Services/HardwareReader.cs:274 | The code of an unknown type can be parsed back from its label. |
| MemoryReader.MemoryTypeNameInjective | Services/HardwareReader.cs:266-276 | Different codes get different labels. |
| MemoryReader.ModuleOf | Services/HardwareReader.cs:248-257 | A record yields a module exactly when capacity, speed and type convert. Missing strings become "—" and a missing speed becomes 0. Capacity is bytes / 1024 / 1024, or 0 when missing. The type is the code's label, or "—" when missing. |
| MemoryReader.CapacityTruncates | Services/HardwareReader.cs:250 | Capacity in MB is the byte count divided by 1024·1024 and truncated. |
| MemoryReader.ModulesMembers | Services/HardwareReader.cs:246-259 | The listed modules are exactly those of the records that convert. |
| MemoryReader.ModulesAllConvertible | Services/HardwareReader.cs:246-259 | When every record converts, there is one module per record, in record order. |
| MemoryReader.GetRamModules | Services/HardwareReader.cs:239-264 | The list holds exactly the modules of the records yielded that convert, whether or not the enumeration then threw. A searcher that throws before yielding anything gives an empty list. |
| MemoryReader.ModulesAppend | Services/HardwareReader.cs:246-259 | The modules of two runs of records are those of the first run followed by those of the second. |
| MemoryReader.ThrowKeepsCollected | Services/HardwareReader.cs:241-263 | An enumeration that throws partway returns the modules already collected: the uninterrupted enumeration's list begins with them. |
| MemoryReader.BadModuleSkipped | Services/HardwareReader.cs:248-258 | A record whose conversion throws is dropped without affecting its neighbours. |
| GpuReader.FromVideoQuery | Services/HardwareReader.cs:280-303 | The query never sets load or temperature. Controllers whose adapter RAM does not convert are skipped, and the first one that converts supplies the description. A failed query, or one where no controller converts, leaves the defaults. |
| GpuReader.FirstControllerWins | Services/HardwareReader.cs:285-297 | The first controller whose adapter RAM converts, after any number that do not, supplies name, truncated MB, processor and driver. Later controllers are ignored. |
| GpuReader.FirstOfKind | Services/HardwareReader.cs:317-319 | The first sensor of the requested type is found, or none exists. |
| GpuReader.MergeHardware | Services/HardwareReader.cs:316-320 | Load and temperature come from the hardware's first load and first temperature sensors. The name is replaced only when it is empty or "—". Nothing else changes. |
| GpuReader.KeywordFallback | Services/HardwareReader.cs:326-347 | The fallback temperature is the value of the first matching sensor from the first updating hardware whose first match has a value. Only the name and the temperature can change. A usable name is kept. An unusable name is replaced by the first hardware's name when that hardware updates, has a matching sensor and has a usable name. |
| GpuReader.KeywordFallbackAtFirstMatch | Services/HardwareReader.cs:326-347 | At the first hardware with a matching sensor, whatever its name, an unusable adapter name becomes that hardware's name (or stays when it has none). The scan stops with the rounded value when the sensor has one, and goes on over the later hardware with the new name otherwise. |
| GpuReader.KeywordFallbackNoMatch | Services/HardwareReader.cs:326-347 | When no hardware updates with a matching sensor, the fallback leaves the details as they were. |
| GpuReader.KeywordFallbackNames | Services/HardwareReader.cs:326-347 | An unnamed adapter takes the name of the first updating hardware with a matching sensor, when that name is usable. |
| GpuReader.GetGpuDetails | Services/HardwareReader.cs:278-352 | RAM, processor and driver come from the query, and a usable WMI name is kept. An empty or "—" WMI name is replaced by the chosen GPU hardware's usable name. Load comes from the first GPU-like hardware that updates. Its temperature is used when present, and the keyword fallback otherwise. With GPU-like hardware the result is the query's details merged with that hardware (an unusable name takes the hardware's name, whatever it is), followed by the keyword fallback when it has no temperature. Without GPU-like hardware the result is the keyword fallback over the query's details. |
| GpuReader.NoGpuNoLoad | Services/HardwareReader.cs:308-324 | Without GPU-like hardware the load is null. |
| GpuReader.HdGraphicsRedundant | Services/HardwareReader.cs:307 | Dropping "hd graphics" from the keyword list changes no match. |
| History.Trim | MainWindow.xaml.cs:283 | Trimming leaves min(count, max) entries. |
| History.TrimKeepsNewest | MainWindow.xaml.cs:283 | The entries that remain are the newest ones, in order. |
| History.Push | MainWindow.xaml.cs:280-284 | After a push the buffer holds min(count + 1, max) entries. |
| History.PushKeepsNewest | MainWindow.xaml.cs:280-284 | After a push the buffer is the newest part of the old buffer followed by v, so v is the newest element when max > 0. |
| History.PushWhileFilling | MainWindow.xaml.cs:280-284 | Pushing onto a shorter buffer keeps every element, in order. |
| History.PushWhenFull | MainWindow.xaml.cs:280-284 | Pushing onto a full buffer drops exactly the oldest element. |
| History.PushRecent | MainWindow.xaml.cs:280-284 | Pushing onto the newest-max window of a series gives the newest-max window of the extended series. |
| History.PushWithin | MainWindow.xaml.cs:280-284 | Pushing keeps every sample within given bounds. |
| History.Average | MainWindow.xaml.cs:247-249 | An empty history averages 0. A non-empty one averages to the sum of its samples divided by their count, rounded to one decimal. |
| History.AverageWithin | MainWindow.xaml.cs:247-249 | Samples within [lo, hi] average between the rounded bounds. |
| History.AverageConstant | MainWindow.xaml.cs:247-249 | Equal samples average to that sample, rounded. |
| History.AverageOfPercentages | MainWindow.xaml.cs:247-249 | Percent samples average to a percentage. |
| History.AverageExample | MainWindow.xaml.cs:247 | [10, 20, 30] averages 20. |
| History.PushExample | MainWindow.xaml.cs:280-284 | Pushing 10, 20, 30 at capacity 2 keeps [20, 30], whose average is 25. |
| Monitor.Read | MainWindow.xaml.cs:240-243 | A tick's sample is the CPU load, the RAM used percent and the GPU load that the three getters return, each from its own read of the sensor tree. |
| Monitor.SilentMachineReadsNothing | MainWindow.xaml.cs:240-268 | With no hardware in any of the three reads and every system source failing, the sample is all null and cannot latch `gotData`. |
| Monitor.Tick | MainWindow.xaml.cs:236-278 | The timer keeps running exactly after a completed tick. `gotData` becomes true exactly on a completed tick with a positive reading, and stays true. A completed tick pushes each reading, null as 0. An exception stops the timer, with or without the pushes, and shows the error status. |
| Monitor.TickKeepsValid | MainWindow.xaml.cs:244-246 | The three histories stay of equal length, at most 30. |
| Monitor.RunKeepsValid | MainWindow.xaml.cs:244-246 | The same holds after any run of ticks. |
| Monitor.StoppedIsFinal | MainWindow.xaml.cs:270-273 | Once the timer has stopped, no tick changes anything. |
| Monitor.RunningIffAllCompleted | MainWindow.xaml.cs:238-273 | The timer runs exactly as long as every tick so far has completed. |
| Monitor.GotDataLatches | MainWindow.xaml.cs:263-268 | `gotData` is never reset. |
| Monitor.GotDataMeaning | MainWindow.xaml.cs:263-268 | `gotData` holds exactly when some tick, completed with every earlier tick, saw a CPU, RAM or GPU reading above 0. |
| Monitor.CpuSeries | MainWindow.xaml.cs:240 | The series of values pushed has one entry per tick: the load, or 0 when null. |
| Monitor.CpuHistoryIsRecentLoads | MainWindow.xaml.cs:240-244 | While ticks complete, the CPU history is the newest 30 loads read, with null read as 0. |
| Monitor.TickKeepsPercentages | MainWindow.xaml.cs:244-246 | Pushing percent readings keeps every history within [0, 100]. |
| Monitor.AveragesArePercentages | MainWindow.xaml.cs:244-249 | When every reading is a percentage, all three averages lie in [0, 100]. |
| Monitor.ThreeTicksExample | MainWindow.xaml.cs:240-268 | CPU readings of 10, 20 and 30 fill the histories, with RAM pushed as 0. The CPU average is 20, and `gotData` latches. |
| Pins.Caption | PinnedWindow.xaml.cs:99-117 | A key that upper-cases to CPU, RAM or GPU is captioned with that name. Any other key is captioned with itself. |
| Pins.Install | PinnedWindow.xaml.cs:84-139 | A key that already has a gauge gets no second gauge. Otherwise one new gauge is appended. |
| Pins.BuildTags | PinnedWindow.xaml.cs:40-50 | Building from a list gives one gauge per distinct key, each tag once. A list without duplicates gives its keys in order. |
| Pins.BuildInKeyOrder | PinnedWindow.xaml.cs:40-50 | The gauges' tags are the keys at their first occurrence, in list order. |
| Pins.Open | PinnedWindow.xaml.cs:24-38 | A null list is empty, and the list is kept as given. The gauges' tags are exactly the distinct keys. |
| Pins.OpenValid | PinnedWindow.xaml.cs:29 | A list of at most 3 distinct non-blank keys opens into a valid window. |
| Pins.Add | PinnedWindow.xaml.cs:66-80 | A null or white-space key, a present key, or a full list leaves the window unchanged, each with its own outcome. Otherwise the key is appended to the list, and a new gauge for it is appended to the existing gauges unless one already carries its tag. |
| Pins.AddKeepsValid | PinnedWindow.xaml.cs:66-80 | Adding keeps "at most 3, no duplicates, no blanks, one gauge per key in list order". |
| Pins.RemoveFirst | PinnedWindow.xaml.cs:154 | `List.Remove` deletes the first occurrence, if any. |
| Pins.RemoveFirstCount | PinnedWindow.xaml.cs:154 | Exactly one copy of a present element is removed. |
| Pins.Remove | PinnedWindow.xaml.cs:143-159 | A null or empty tag, or a tag without a gauge, changes nothing. Otherwise the first gauge with the tag and the first copy of the key are removed, and every other gauge stays as it was, in order. |
| Pins.RemoveKeepsValid | PinnedWindow.xaml.cs:143-159 | Removing keeps a valid window valid. |
| Pins.AddThenRemove | PinnedWindow.xaml.cs:66-80 | Pinning a key and then unpinning it restores the window exactly. |
| Pins.Refresh | PinnedWindow.xaml.cs:217-243 | Tags "CPU", "RAM" and "GPU" (case-sensitive) get the CPU load, RAM percent and GPU load, with null as 0. Other gauges and the key list are untouched. |
| Pins.RefreshIdempotent | PinnedWindow.xaml.cs:217-243 | Refreshing twice with the same readings is the same as refreshing once. |
| Pins.LowerCaseCpuNeverUpdated | PinnedWindow.xaml.cs:99-117 | A key pinned as "cpu" is captioned CPU, but no tick updates its gauge. |
| Pins.DuplicateKeyStrands | PinnedWindow.xaml.cs:29 | Opening with a key twice and unpinning it leaves the key in the list with no gauge, and the key can never be pinned again. |
| CircularProgress.Target | Controls/CircularProgress.xaml.cs:65 | The target lies in [0, Maximum] when Maximum ≥ 0 and is 0 when Maximum < 0. It is the value or one of the two ends. |
| CircularProgress.TargetOnScale | Controls/CircularProgress.xaml.cs:65 | The clamp is the identity on [0, Maximum]. |
| CircularProgress.TargetOffScale | Controls/CircularProgress.xaml.cs:65 | Values below 0 go to 0, and values above Maximum go to Maximum. |
| CircularProgress.TargetIdempotent | Controls/CircularProgress.xaml.cs:65 | Clamping twice is the same as clamping once. |
| CircularProgress.TargetMonotone | Controls/CircularProgress.xaml.cs:65 | The clamp preserves order. |
| CircularProgress.Scale | Controls/CircularProgress.xaml.cs:101 | The denominator is at least 1 and at least Maximum. |
| CircularProgress.SweepAngle | Controls/CircularProgress.xaml.cs:101 | The angle is positive exactly for a positive value. For 0 ≤ value ≤ Maximum it is at most 360. |
| CircularProgress.Draw | Controls/CircularProgress.xaml.cs:93-147 | The ring is always drawn first. An arc follows exactly when the angle is positive. The arc starts at −90°, spans the angle, and is large exactly when the angle exceeds 180. |
| CircularProgress.TargetSweepWithinTurn | Controls/CircularProgress.xaml.cs:65-101 | For any value and any Maximum, the clamped value's angle lies in [0, 360]. |
| CircularProgress.LargeArcPastHalf | Controls/CircularProgress.xaml.cs:101-119 | With Maximum ≥ 1, the large arc is drawn exactly when the value exceeds half the scale. |
| CircularProgress.DrawExamples | Controls/CircularProgress.xaml.cs:101-119 | 0 % draws only the ring. 100 % draws a large arc from −90° to 270°. 25 % draws a small arc from −90° to 0°. |

## Left out

- The real sources are inputs, not calls: the LibreHardwareMonitor `Computer` and `Update()`, the WMI searchers, the `PerformanceCounter`s and the `GlobalMemoryStatusEx` P/Invoke. Whether `Update()` throws is one fixed flag per hardware, for one getter call. A tick calls three getters, each updating the hardware again, so `Monitor.Read` takes one tree per getter.
- The hardware reader's constructor and `Dispose` only manage resource lifetimes. A counter that could not be created is modelled as a counter input of `Error`.
- Floating point: every `double` is an exact real. IEEE-754 results can round differently. For example, 3000 tenths of a kelvin is 26.850000000000023 in IEEE arithmetic, which rounds to 26.9, while the model gives 26.8. The performance counter's single-precision value is also not modelled.
- Culture: `ToLower()` uses the current culture. The model maps only the characters whose lower-case (upper-case) form is ASCII, which is exact for matching ASCII keywords under a non-Turkish culture. A Turkish culture is not modelled.
- `Convert` from floating-point WMI values (banker's rounding before the range check) is not modelled: WMI numeric properties are integers here.
- The outer `catch` of `GetCpuTemperatures` (lines 152-158) is not modelled. Every statement that can throw is inside an inner `try` or in `GetCpuTempFromWmi`, which catches everything.
- Monitor.Read: passes along only the three percentages a tick pushes. `GetCpuDetails`, the RAM totals and the GPU name and driver are only displayed as text, and that display is not modelled.
- Monitor.Tick: does not say which statement throws. A tick's outcome is given as an event (completed, thrown before the pushes, thrown after them). The log file, the message box and the status strings are reduced to the three-valued `Status`.
- History.Push: `max` is a natural number. With a negative `max` the source's `Dequeue` would throw on an empty queue; every caller passes 30.
- PinnedWindow's drag-and-drop plumbing is not modelled. Its own null-or-empty check is subsumed by `Pins.Add`'s null-or-white-space check.
- The temporary hints (`ShowTemporaryHint`, `ResetHintAfterDelay`, `UpdateHintVisibility`) are timers and visibility only, and are not modelled.
- Pins.Remove: takes effect at once. In the source it runs when the fade-out animation completes, so two right-clicks during one fade would remove twice. That interleaving is not modelled.
- Pins.Open: takes the initial keys as non-null strings. A null entry would make the constructor throw at `ToUpperInvariant`.
- Pins.Refresh: takes one reading per metric per tick, while the source calls the getter once per matching gauge. The two agree when a window has one gauge per tag, which every valid window has.
- Pins.Refresh: compares the gauge's tag only. The source's fallback to the caption when the tag is null never applies, because every gauge gets its key as its tag.
- The gauge's animation is not modelled (`AnimateTo`, the easing, `_current`, the intermediate values drawn while it runs). Nor are the canvas size, `PointOnCircle`'s trigonometry, brushes, the percent text and the redraws on load and resize. `CircularProgress.Draw` draws the value it is given.
- NaN is not modelled in `Math.Min`/`Math.Max`.
- Window management, the tray icon, `Utils/Logger.cs` and `App.xaml.cs` are UI, file I/O and process-wide handlers, so they are not modelled.
