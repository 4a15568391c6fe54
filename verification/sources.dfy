/**
 * The data the hardware reader consumes, one value per backend: the sensor
 * tree of the hardware-monitoring library, the records of each WMI query,
 * the two performance counters and the memory-status system call. Each
 * backend's failure is part of its value, so every getter is a pure function.
 */
module Sources {
  import opened Wrappers
  import opened Rounding

  /** The placeholder the reader shows for a missing text field. */
  const NoData: string := "—"

  /** Bytes in a megabyte, the divisor of `/ 1024 / 1024`. */
  const BytesPerMB: nat := 1024 * 1024

  /** Whole megabytes by integer division: the remainder is dropped, never rounded up. */
  lemma WholeMegabytes(bytes: nat)
    ensures (bytes / BytesPerMB) * BytesPerMB <= bytes < (bytes / BytesPerMB + 1) * BytesPerMB
  {
  }

  /** LibreHardwareMonitor's hardware categories. */
  datatype HardwareType =
    | Motherboard | SuperIO | Cpu | Memory | GpuNvidia | GpuAmd | GpuIntel
    | Storage | Network | Cooler | EmbeddedController | Psu | Battery

  /**
   * `HardwareType.ToString().ToLower().Contains("gpu")`: of the category
   * names only GpuNvidia, GpuAmd and GpuIntel contain "gpu".
   */
  predicate IsGpuType(t: HardwareType)
  {
    t.GpuNvidia? || t.GpuAmd? || t.GpuIntel?
  }

  /** The sensor kinds the reader distinguishes; all others are `OtherKind`. */
  datatype SensorType = Load | Temperature | Data | OtherKind

  /** A sensor as read after its hardware was updated. */
  datatype Sensor = Sensor(kind: SensorType, name: Option<string>, value: Option<real>)

  /**
   * A hardware node: `updates` says whether `Update()` returns normally in
   * this read (it is either always or never thrown for one snapshot).
   */
  datatype Hardware = Hardware(kind: HardwareType, name: Option<string>, updates: bool, sensors: seq<Sensor>)

  /** `s.Value == null ? null : Math.Round(s.Value, 1)`. */
  function Reading(s: Sensor): Option<real>
  {
    Round1Opt(s.value)
  }

  /** `sensors.Where(s => s.SensorType == SensorType.Temperature)`, order kept. */
  function TemperatureSensors(ss: seq<Sensor>): (r: seq<Sensor>)
    ensures forall s :: s in r <==> s in ss && s.kind == Temperature
    ensures |r| <= |ss|
    decreases |ss|
  {
    if |ss| == 0 then []
    else (if ss[0].kind == Temperature then [ss[0]] else []) + TemperatureSensors(ss[1..])
  }

  /** The filter keeps sensor order: the sensors kept from a run are those kept from each part. */
  lemma {:induction false} TemperatureSensorsInOrder(ss: seq<Sensor>, more: seq<Sensor>)
    ensures TemperatureSensors(ss + more) == TemperatureSensors(ss) + TemperatureSensors(more)
    decreases |ss|
  {
    if |ss| > 0 {
      assert (ss + more)[0] == ss[0];
      assert (ss + more)[1..] == ss[1..] + more;
      TemperatureSensorsInOrder(ss[1..], more);
    } else {
      assert ss + more == more;
    }
  }

  /** A single sensor is kept, once, exactly when it is a temperature sensor. */
  lemma TemperatureSensorsOne(s: Sensor)
    ensures TemperatureSensors([s]) == if s.kind == Temperature then [s] else []
  {
    assert [s][1..] == [];
  }

  /** A WMI query: `Error` when the searcher throws, otherwise its records in order. */
  type Query<R> = Result<seq<R>>

  /**
   * A WMI enumeration read to its end: the records it yielded, in order, and
   * whether it then threw. A searcher that throws before yielding anything is
   * `Listing([], true)`. The getters that stop at their first match need no
   * more than a `Query`; the one that collects every record needs this.
   */
  datatype Listing<R> = Listing(records: seq<R>, throws: bool)

  /** A `Win32_Processor` record; numeric properties as the integers WMI holds. */
  datatype ProcessorRecord = ProcessorRecord(
    name: Option<string>, cores: Option<int>, logicalProcessors: Option<int>,
    maxClockSpeed: Option<int>, l2CacheSize: Option<int>, l3CacheSize: Option<int>)

  /** A `Win32_PhysicalMemory` record. */
  datatype MemoryRecord = MemoryRecord(
    bankLabel: Option<string>, capacity: Option<int>, speed: Option<int>,
    manufacturer: Option<string>, partNumber: Option<string>, memoryType: Option<int>)

  /** A `Win32_VideoController` record. */
  datatype VideoRecord = VideoRecord(
    name: Option<string>, adapterRam: Option<int>, videoProcessor: Option<string>, driverVersion: Option<string>)

  /** `GlobalMemoryStatusEx`'s physical-memory fields, in bytes. */
  datatype MemoryStatus = MemoryStatus(totalPhys: nat, availPhys: nat)

  /** `Convert.ToInt32`: `None` is the `OverflowException`. */
  function ToInt32(v: int): (r: Option<int>)
    ensures r.Some? ==> r.value == v
    ensures r.Some? <==> -0x8000_0000 <= v < 0x8000_0000
  {
    if -0x8000_0000 <= v < 0x8000_0000 then Some(v) else None
  }

  /** `Convert.ToUInt32`. */
  function ToUInt32(v: int): (r: Option<nat>)
    ensures r.Some? ==> r.value == v
    ensures r.Some? <==> 0 <= v < 0x1_0000_0000
  {
    if 0 <= v < 0x1_0000_0000 then Some(v) else None
  }

  /** `Convert.ToUInt64`. */
  function ToUInt64(v: int): (r: Option<nat>)
    ensures r.Some? ==> r.value == v
    ensures r.Some? <==> 0 <= v < 0x1_0000_0000_0000_0000
  {
    if 0 <= v < 0x1_0000_0000_0000_0000 then Some(v) else None
  }

  /** `mo[p] != null ? Convert.ToInt32(mo[p]) : fallback`; `None` when the conversion throws. */
  function Int32Field(f: Option<int>, fallback: int): (r: Option<int>)
    ensures f.None? ==> r == Some(fallback)
    ensures f.Some? ==> r == ToInt32(f.value)
  {
    match f
    case None => Some(fallback)
    case Some(v) => ToInt32(v)
  }

  /** `mo[p] != null ? Convert.ToUInt32(mo[p]) : fallback`. */
  function UInt32Field(f: Option<int>, fallback: nat): (r: Option<nat>)
    ensures f.None? ==> r == Some(fallback)
    ensures f.Some? ==> r == ToUInt32(f.value)
  {
    match f
    case None => Some(fallback)
    case Some(v) => ToUInt32(v)
  }

  /** `mo[p] != null ? Convert.ToUInt64(mo[p]) : fallback`. */
  function UInt64Field(f: Option<int>, fallback: nat): (r: Option<nat>)
    ensures f.None? ==> r == Some(fallback)
    ensures f.Some? ==> r == ToUInt64(f.value)
  {
    match f
    case None => Some(fallback)
    case Some(v) => ToUInt64(v)
  }

  /** `string.IsNullOrEmpty(name) || name == "—"`: no usable name yet. */
  predicate Unnamed(name: string)
  {
    name == "" || name == NoData
  }
}
