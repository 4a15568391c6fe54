/** `GetCpuTemperatures`, `GetCpuTempFromWmi` and `GetAllTemperatureSensors` of the hardware reader. */
module TemperatureReader {
  import opened Wrappers
  import opened Text
  import opened Rounding
  import opened Search
  import opened Sources
  import opened Stats

  /** One entry of the per-core list: a sensor name and its rounded value, if any. */
  datatype TemperatureReading = TemperatureReading(sensor: string, value: Option<real>)

  /** The getter's triple: a processor name, the readings and their average. */
  datatype CpuTemperatures = CpuTemperatures(name: string, readings: seq<TemperatureReading>, average: Option<real>)

  /** The fallback name of the processor. */
  const DefaultCpuName: string := "CPU"

  /** The sensor-name keywords of the second stage. */
  const CpuKeywords: seq<string> := ["core", "package", "cpu", "celsius", "tctl"]

  // ---------------------------------------------------------------- ACPI

  /** Tenths of a kelvin, as `MSAcpi_ThermalZoneTemperature` reports them, in degrees Celsius. */
  function AcpiCelsius(tenthsKelvin: real): real
  {
    tenthsKelvin / 10.0 - 273.15
  }

  /** The inverse conversion, degrees Celsius to tenths of a kelvin. */
  function TenthsKelvin(celsius: real): real
  {
    (celsius + 273.15) * 10.0
  }

  lemma AcpiCelsiusRoundTrip(c: real, t: real)
    ensures AcpiCelsius(TenthsKelvin(c)) == c
    ensures TenthsKelvin(AcpiCelsius(t)) == t
  {
  }

  /** 3000 tenths of a kelvin are exactly 26.85 degrees; the tie rounds to the even tenth. */
  lemma AcpiExample()
    ensures AcpiCelsius(3000.0) == 26.85
    ensures Round1(AcpiCelsius(3000.0)) == 26.8
  {
  }

  /** The loop over thermal zones: the first zone whose `CurrentTemperature` is not null. */
  function ZoneStep(current: Option<int>): Step<real>
  {
    match current
    case Some(raw) => Stop(Round1(AcpiCelsius(raw as real)))
    case None => Continue
  }

  /**
   * `GetCpuTempFromWmi`: the first thermal zone with a temperature, converted
   * and rounded; `null` when the query throws or no zone has one.
   */
  function GetCpuTempFromWmi(zones: Query<Option<int>>): (r: Option<real>)
    ensures zones.Error? ==> r.None?
    ensures zones.Ok? ==>
              forall k :: 0 <= k < |zones.value| && zones.value[k].Some? && (forall j :: 0 <= j < k ==> zones.value[j].None?) ==>
                r == Some(Round1(AcpiCelsius(zones.value[k].value as real)))
    ensures r.None? <==> zones.Error? || forall k :: 0 <= k < |zones.value| ==> zones.value[k].None?
  {
    match zones
    case Error => None
    case Ok(zs) =>
      match Scan(zs, ZoneStep)
      case Found(c) => Some(c)
      case Exhausted => None
      case Aborted => assert false; None
  }

  // ---------------------------------------------------------------- stage 1: CPU-like hardware

  /** A CPU by category, or by "cpu" or "processor" in its lower-cased name. */
  predicate LikelyCpu(h: Hardware)
  {
    var lname := Lower(h.name.GetOr(""));
    h.kind == Cpu || Contains(lname, "cpu") || Contains(lname, "processor")
  }

  /** The hardware the first stage reads: CPU-like and updating without an exception. */
  predicate ReadsAsCpu(h: Hardware)
  {
    h.updates && LikelyCpu(h)
  }

  /** `(s.Name ?? "Temp", rounded value)`: the entry one sensor adds. */
  function ReadingOf(s: Sensor): TemperatureReading
  {
    TemperatureReading(s.name.GetOr("Temp"), Reading(s))
  }

  /** The entries of a run of sensors, in order. */
  function ReadingsOf(ss: seq<Sensor>): (r: seq<TemperatureReading>)
    ensures |r| == |ss|
    ensures forall i :: 0 <= i < |ss| ==> r[i] == ReadingOf(ss[i])
    ensures forall e :: e in r <==> exists s :: s in ss && e == ReadingOf(s)
  {
    var r := seq(|ss|, i requires 0 <= i < |ss| => ReadingOf(ss[i]));
    assert forall s :: s in ss ==> ReadingOf(s) in r by {
      forall s | s in ss ensures ReadingOf(s) in r {
        var i :| 0 <= i < |ss| && ss[i] == s;
        assert r[i] == ReadingOf(s);
      }
    }
    r
  }

  /** What one hardware adds in the first stage: its temperature sensors, when it reads as a CPU. */
  function CpuReadingsOf(h: Hardware): seq<TemperatureReading>
  {
    if ReadsAsCpu(h) then ReadingsOf(TemperatureSensors(h.sensors)) else []
  }

  /** The readings the first stage collects: all temperature sensors of CPU-like hardware. */
  function CpuStageReadings(hw: seq<Hardware>): (r: seq<TemperatureReading>)
    ensures r == [] <==> forall h :: h in hw && ReadsAsCpu(h) ==> TemperatureSensors(h.sensors) == []
    ensures forall e :: e in r <==>
              exists h, s :: h in hw && ReadsAsCpu(h) && s in h.sensors && s.kind == Temperature && e == ReadingOf(s)
    decreases |hw|
  {
    if |hw| == 0 then []
    else
      assert forall h :: h in hw <==> h == hw[0] || h in hw[1..];
      CpuReadingsOf(hw[0]) + CpuStageReadings(hw[1..])
  }

  /**
   * The first stage keeps hardware order and, within one hardware, sensor
   * order: the readings of a tree are those of each part, one after the other.
   */
  lemma {:induction false} CpuStageReadingsInOrder(hw: seq<Hardware>, more: seq<Hardware>)
    ensures CpuStageReadings(hw + more) == CpuStageReadings(hw) + CpuStageReadings(more)
    decreases |hw|
  {
    if |hw| > 0 {
      var all := hw + more;
      assert all[0] == hw[0];
      assert all[1..] == hw[1..] + more;
      CpuStageReadingsInOrder(hw[1..], more);
    } else {
      assert hw + more == more;
    }
  }

  /** A single hardware contributes its own readings in the first stage. */
  lemma CpuStageReadingsOne(h: Hardware)
    ensures CpuStageReadings([h]) == CpuReadingsOf(h)
  {
    assert [h][1..] == [];
  }

  /** `if (!string.IsNullOrEmpty(h.Name)) cpuName = h.Name` over the CPU-like hardware. */
  function CpuStageName(hw: seq<Hardware>, name: string): (r: string)
    ensures r == name || exists h :: h in hw && ReadsAsCpu(h) && h.name == Some(r) && r != ""
    ensures r != "" <== name != ""
    decreases |hw|
  {
    if |hw| == 0 then name
    else
      var h := hw[0];
      var name' := if ReadsAsCpu(h) && !IsNullOrEmpty(h.name) then h.name.value else name;
      assert forall g :: g in hw[1..] ==> g in hw;
      CpuStageName(hw[1..], name')
  }

  /** The last CPU-like hardware with a name wins. */
  lemma CpuStageNameLastWins(hw: seq<Hardware>, name: string, k: int)
    requires 0 <= k < |hw| && ReadsAsCpu(hw[k]) && !IsNullOrEmpty(hw[k].name)
    requires forall j :: k < j < |hw| ==> !(ReadsAsCpu(hw[j]) && !IsNullOrEmpty(hw[j].name))
    ensures CpuStageName(hw, name) == hw[k].name.value
    decreases |hw|
  {
    if k > 0 {
      var name' := if ReadsAsCpu(hw[0]) && !IsNullOrEmpty(hw[0].name) then hw[0].name.value else name;
      CpuStageNameLastWins(hw[1..], name', k - 1);
    } else {
      CpuStageNameUnchanged(hw[1..], hw[0].name.value);
    }
  }

  lemma {:induction false} CpuStageNameUnchanged(hw: seq<Hardware>, name: string)
    requires forall j :: 0 <= j < |hw| ==> !(ReadsAsCpu(hw[j]) && !IsNullOrEmpty(hw[j].name))
    ensures CpuStageName(hw, name) == name
    decreases |hw|
  {
    if |hw| > 0 {
      CpuStageNameUnchanged(hw[1..], name);
    }
  }

  // ---------------------------------------------------------------- stage 2: keyword scan

  /** A temperature sensor whose lower-cased name contains one of the CPU keywords. */
  predicate KeywordSensor(s: Sensor)
  {
    s.kind == Temperature && ContainsAny(Lower(s.name.GetOr("")), CpuKeywords)
  }

  function KeywordSensors(ss: seq<Sensor>): (r: seq<Sensor>)
    ensures forall s :: s in r <==> s in ss && KeywordSensor(s)
    decreases |ss|
  {
    if |ss| == 0 then []
    else (if KeywordSensor(ss[0]) then [ss[0]] else []) + KeywordSensors(ss[1..])
  }

  /** The keyword filter keeps sensor order: the sensors kept from a run are those kept from each part. */
  lemma {:induction false} KeywordSensorsInOrder(ss: seq<Sensor>, more: seq<Sensor>)
    ensures KeywordSensors(ss + more) == KeywordSensors(ss) + KeywordSensors(more)
    decreases |ss|
  {
    if |ss| > 0 {
      assert (ss + more)[0] == ss[0];
      assert (ss + more)[1..] == ss[1..] + more;
      KeywordSensorsInOrder(ss[1..], more);
    } else {
      assert ss + more == more;
    }
  }

  /** A single sensor is kept, once, exactly when it matches a keyword. */
  lemma KeywordSensorsOne(s: Sensor)
    ensures KeywordSensors([s]) == if KeywordSensor(s) then [s] else []
  {
    assert [s][1..] == [];
  }

  /** What one hardware adds in the second stage: its matching sensors, when it updates. */
  function KeywordReadingsOf(h: Hardware): seq<TemperatureReading>
  {
    if h.updates then ReadingsOf(KeywordSensors(h.sensors)) else []
  }

  /** The readings of the second stage: matching sensors of every hardware that updates. */
  function KeywordStageReadings(hw: seq<Hardware>): (r: seq<TemperatureReading>)
    ensures r == [] <==> forall h :: h in hw && h.updates ==> KeywordSensors(h.sensors) == []
    ensures forall e :: e in r <==>
              exists h, s :: h in hw && h.updates && s in h.sensors && KeywordSensor(s) && e == ReadingOf(s)
    decreases |hw|
  {
    if |hw| == 0 then []
    else
      assert forall h :: h in hw <==> h == hw[0] || h in hw[1..];
      KeywordReadingsOf(hw[0]) + KeywordStageReadings(hw[1..])
  }

  /** The second stage keeps hardware order and, within one hardware, sensor order. */
  lemma {:induction false} KeywordStageReadingsInOrder(hw: seq<Hardware>, more: seq<Hardware>)
    ensures KeywordStageReadings(hw + more) == KeywordStageReadings(hw) + KeywordStageReadings(more)
    decreases |hw|
  {
    if |hw| > 0 {
      var all := hw + more;
      assert all[0] == hw[0];
      assert all[1..] == hw[1..] + more;
      KeywordStageReadingsInOrder(hw[1..], more);
    } else {
      assert hw + more == more;
    }
  }

  /** A single hardware contributes its own readings in the second stage. */
  lemma KeywordStageReadingsOne(h: Hardware)
    ensures KeywordStageReadings([h]) == KeywordReadingsOf(h)
  {
    assert [h][1..] == [];
  }

  /**
   * The rename inside the second stage: a hardware with a matching sensor
   * names the processor when the name so far is null or empty.
   */
  function KeywordStageName(hw: seq<Hardware>, name: string): string
    decreases |hw|
  {
    if |hw| == 0 then name
    else
      var h := hw[0];
      var name' := if h.updates && KeywordSensors(h.sensors) != [] && name == "" && !IsNullOrEmpty(h.name)
                   then h.name.value else name;
      KeywordStageName(hw[1..], name')
  }

  /** The rename never fires: the name it tests is never empty when the stage runs. */
  lemma {:induction false} KeywordStageNameNeverRenames(hw: seq<Hardware>, name: string)
    requires name != ""
    ensures KeywordStageName(hw, name) == name
    decreases |hw|
  {
    if |hw| > 0 {
      KeywordStageNameNeverRenames(hw[1..], name);
    }
  }

  // ---------------------------------------------------------------- average

  /** The optional values of the readings, in order. */
  function ValuesOf(rs: seq<TemperatureReading>): (r: seq<Option<real>>)
    ensures |r| == |rs|
    ensures forall i :: 0 <= i < |rs| ==> r[i] == rs[i].value
  {
    seq(|rs|, i requires 0 <= i < |rs| => rs[i].value)
  }

  /**
   * The values of the readings that have one, in order: each value occurs as
   * often as readings carry it.
   */
  function PresentValues(rs: seq<TemperatureReading>): (r: seq<real>)
    ensures |r| <= |rs|
    ensures |r| == 0 <==> forall i :: 0 <= i < |rs| ==> rs[i].value.None?
    ensures forall x :: multiset(r)[x] == multiset(ValuesOf(rs))[Some(x)]
    decreases |rs|
  {
    if |rs| == 0 then []
    else
      var init := rs[..|rs| - 1];
      var p := PresentValues(init);
      var v := rs[|rs| - 1].value;
      ValuesOfSnoc(rs);
      assert multiset(ValuesOf(rs)) == multiset(ValuesOf(init)) + multiset{v};
      if v.Some? then
        assert multiset(p + [v.value]) == multiset(p) + multiset{v.value};
        p + [v.value]
      else
        p
  }

  /** The values of a non-empty list are those of all but the last reading, then the last one's. */
  lemma ValuesOfSnoc(rs: seq<TemperatureReading>)
    requires |rs| > 0
    ensures ValuesOf(rs) == ValuesOf(rs[..|rs| - 1]) + [rs[|rs| - 1].value]
  {
  }

  /** Every present value comes from some reading. */
  lemma PresentValueFromReading(rs: seq<TemperatureReading>, x: real)
    requires x in PresentValues(rs)
    ensures exists i :: 0 <= i < |rs| && rs[i].value == Some(x)
  {
    assert multiset(PresentValues(rs))[x] > 0;
    assert Some(x) in ValuesOf(rs);
  }

  /** `sum` of the averaging loop: every reading's value added in order, a missing one adding nothing. */
  function LoopSum(rs: seq<TemperatureReading>): real
    decreases |rs|
  {
    if |rs| == 0 then 0.0
    else
      var t := rs[|rs| - 1];
      LoopSum(rs[..|rs| - 1]) + (if t.value.Some? then t.value.value else 0.0)
  }

  /** `cnt` of the averaging loop: one for every reading with a value. */
  function LoopCount(rs: seq<TemperatureReading>): nat
    decreases |rs|
  {
    if |rs| == 0 then 0
    else LoopCount(rs[..|rs| - 1]) + (if rs[|rs| - 1].value.Some? then 1 else 0)
  }

  /** The loop's sum and count are the sum and the length of the present values. */
  lemma {:induction false} LoopMatchesPresent(rs: seq<TemperatureReading>)
    ensures LoopSum(rs) == Sum(PresentValues(rs))
    ensures LoopCount(rs) == |PresentValues(rs)|
    decreases |rs|
  {
    if |rs| > 0 {
      var init := rs[..|rs| - 1];
      var p := PresentValues(init);
      LoopMatchesPresent(init);
      match rs[|rs| - 1].value
      case Some(x) =>
        assert (p + [x])[..|p|] == p;
      case None =>
    }
  }

  /**
   * The loop at the end of `GetCpuTemperatures`: `Math.Round(sum / cnt, 1)`
   * over the readings that have values, `null` when none has.
   */
  function TemperatureAverage(rs: seq<TemperatureReading>): (r: Option<real>)
    ensures r.None? <==> forall i :: 0 <= i < |rs| ==> rs[i].value.None?
    ensures r == if LoopCount(rs) > 0 then Some(Round1(LoopSum(rs) / LoopCount(rs) as real)) else None
  {
    LoopMatchesPresent(rs);
    var present := PresentValues(rs);
    if |present| > 0 then Some(Round1(Mean(present))) else None
  }

  /** Readings whose values, where present, lie in [lo, hi]. */
  ghost predicate ValuesWithin(rs: seq<TemperatureReading>, lo: real, hi: real)
  {
    forall i :: 0 <= i < |rs| && rs[i].value.Some? ==> lo <= rs[i].value.value <= hi
  }

  /** The average lies between the rounded extremes of the readings. */
  lemma TemperatureAverageWithin(rs: seq<TemperatureReading>, lo: real, hi: real)
    requires ValuesWithin(rs, lo, hi)
    requires TemperatureAverage(rs).Some?
    ensures Round1(lo) <= TemperatureAverage(rs).value <= Round1(hi)
  {
    var present := PresentValues(rs);
    assert AllWithin(present, lo, hi) by {
      forall j | 0 <= j < |present|
        ensures lo <= present[j] <= hi
      {
        PresentValueFromReading(rs, present[j]);
      }
    }
    RoundedMeanWithin(present, lo, hi);
  }

  /** Readings that all agree average to that value. */
  lemma TemperatureAverageConstant(rs: seq<TemperatureReading>, v: real)
    requires ValuesWithin(rs, v, v)
    requires TemperatureAverage(rs).Some?
    ensures TemperatureAverage(rs) == Some(Round1(v))
  {
    TemperatureAverageWithin(rs, v, v);
  }

  // ---------------------------------------------------------------- the getter

  /** The list after the three stages: each runs only when the ones before found nothing. */
  function StagedReadings(hw: seq<Hardware>, zones: Query<Option<int>>): seq<TemperatureReading>
  {
    var stage1 := CpuStageReadings(hw);
    if stage1 != [] then stage1
    else
      var stage2 := KeywordStageReadings(hw);
      if stage2 != [] then stage2
      else
        match GetCpuTempFromWmi(zones)
        case Some(t) => [TemperatureReading("WMI", Some(t))]
        case None => []
  }

  /**
   * `GetCpuTemperatures`: CPU-like hardware first, then a keyword scan over
   * all temperature sensors, then the ACPI thermal zones, with the average
   * of whatever readings have values.
   */
  function GetCpuTemperatures(hw: seq<Hardware>, zones: Query<Option<int>>): (r: CpuTemperatures)
    ensures (exists h :: h in hw && ReadsAsCpu(h) && TemperatureSensors(h.sensors) != []) ==>
              r.readings == CpuStageReadings(hw)
    ensures (forall h :: h in hw && ReadsAsCpu(h) ==> TemperatureSensors(h.sensors) == []) &&
            (exists h :: h in hw && h.updates && KeywordSensors(h.sensors) != []) ==>
              r.readings == KeywordStageReadings(hw)
    ensures (forall h :: h in hw && ReadsAsCpu(h) ==> TemperatureSensors(h.sensors) == []) &&
            (forall h :: h in hw && h.updates ==> KeywordSensors(h.sensors) == []) ==>
              r.readings == (if GetCpuTempFromWmi(zones).Some? then [TemperatureReading("WMI", GetCpuTempFromWmi(zones))] else [])
    ensures r.average == TemperatureAverage(r.readings)
    ensures r.average.None? <==> forall i :: 0 <= i < |r.readings| ==> r.readings[i].value.None?
    ensures r.name == CpuStageName(hw, DefaultCpuName)
    ensures r.name == DefaultCpuName || exists h :: h in hw && ReadsAsCpu(h) && h.name == Some(r.name) && r.name != ""
  {
    var stageName := CpuStageName(hw, DefaultCpuName);
    var readings := StagedReadings(hw, zones);
    var name := if CpuStageReadings(hw) == [] then KeywordStageName(hw, stageName) else stageName;
    KeywordStageNameNeverRenames(hw, stageName);
    CpuTemperatures(name, readings, TemperatureAverage(readings))
  }

  /** When only the thermal zone answers, its value is both the single reading and the average. */
  lemma WmiOnlyAverage(hw: seq<Hardware>, zones: Query<Option<int>>, t: real)
    requires forall h :: h in hw && ReadsAsCpu(h) ==> TemperatureSensors(h.sensors) == []
    requires forall h :: h in hw && h.updates ==> KeywordSensors(h.sensors) == []
    requires GetCpuTempFromWmi(zones) == Some(t)
    ensures GetCpuTemperatures(hw, zones).readings == [TemperatureReading("WMI", Some(t))]
    ensures GetCpuTemperatures(hw, zones).average == Some(Round1(t))
  {
    var rs := [TemperatureReading("WMI", Some(t))];
    TemperatureAverageConstant(rs, t);
  }

  // ---------------------------------------------------------------- all sensors

  /** One entry of `GetAllTemperatureSensors`. */
  datatype SensorEntry = SensorEntry(hardware: string, sensor: string, value: Option<real>)

  function EntryOf(h: Hardware, s: Sensor): SensorEntry
  {
    SensorEntry(h.name.GetOr(NoData), s.name.GetOr(NoData), Reading(s))
  }

  function EntriesOf(h: Hardware, ss: seq<Sensor>): (r: seq<SensorEntry>)
    ensures |r| == |ss|
    ensures forall i :: 0 <= i < |ss| ==> r[i] == EntryOf(h, ss[i])
  {
    seq(|ss|, i requires 0 <= i < |ss| => EntryOf(h, ss[i]))
  }

  /**
   * `GetAllTemperatureSensors`: every temperature sensor of every hardware
   * whose `Update()` returns normally, in tree order; hardware that throws is
   * skipped without losing the others.
   */
  function GetAllTemperatureSensors(hw: seq<Hardware>): (r: seq<SensorEntry>)
    ensures forall h, s :: h in hw && h.updates && s in h.sensors && s.kind == Temperature ==> EntryOf(h, s) in r
    ensures forall e :: e in r ==> exists h, s :: h in hw && h.updates && s in h.sensors && s.kind == Temperature && e == EntryOf(h, s)
    decreases |hw|
  {
    if |hw| == 0 then []
    else
      var h := hw[0];
      EntriesOfHardwareMembers(h);
      assert forall g :: g in hw <==> g == h || g in hw[1..];
      EntriesOfHardware(h) + GetAllTemperatureSensors(hw[1..])
  }

  /** What one hardware adds: an entry per temperature sensor when it updates, nothing when it throws. */
  function EntriesOfHardware(h: Hardware): seq<SensorEntry>
  {
    if h.updates then EntriesOf(h, TemperatureSensors(h.sensors)) else []
  }

  /** One hardware's entries are exactly those of its temperature sensors, when it updates. */
  lemma EntriesOfHardwareMembers(h: Hardware)
    ensures forall s :: h.updates && s in h.sensors && s.kind == Temperature ==> EntryOf(h, s) in EntriesOfHardware(h)
    ensures forall e :: e in EntriesOfHardware(h) ==> exists s :: h.updates && s in h.sensors && s.kind == Temperature && e == EntryOf(h, s)
  {
    if h.updates {
      var ts := TemperatureSensors(h.sensors);
      var es := EntriesOf(h, ts);
      forall s | s in h.sensors && s.kind == Temperature
        ensures EntryOf(h, s) in es
      {
        var i :| 0 <= i < |ts| && ts[i] == s;
        assert es[i] == EntryOf(h, s);
      }
      forall e | e in es
        ensures exists s :: s in h.sensors && s.kind == Temperature && e == EntryOf(h, s)
      {
        var i :| 0 <= i < |es| && es[i] == e;
        assert ts[i] in ts;
      }
    }
  }

  /** The list keeps hardware order: the entries of a tree are those of each part, one after the other. */
  lemma {:induction false} GetAllTemperatureSensorsInOrder(hw: seq<Hardware>, more: seq<Hardware>)
    ensures GetAllTemperatureSensors(hw + more) == GetAllTemperatureSensors(hw) + GetAllTemperatureSensors(more)
    decreases |hw|
  {
    if |hw| > 0 {
      var all := hw + more;
      assert all[0] == hw[0];
      assert all[1..] == hw[1..] + more;
      GetAllTemperatureSensorsInOrder(hw[1..], more);
    } else {
      assert hw + more == more;
    }
  }

  /** A single hardware contributes its own entries. */
  lemma GetAllTemperatureSensorsOne(h: Hardware)
    ensures GetAllTemperatureSensors([h]) == EntriesOfHardware(h)
  {
    assert [h][1..] == [];
  }
}
