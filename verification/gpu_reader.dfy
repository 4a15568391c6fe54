/** `GetGpuDetails` of the hardware reader. */
module GpuReader {
  import opened Wrappers
  import opened Text
  import opened Rounding
  import opened Search
  import opened Sources

  /** `GpuDetails`: the adapter's static description and two live readings. */
  datatype GpuDetails = GpuDetails(
    name: string, adapterRamMB: nat, videoProcessor: string, driverVersion: string,
    loadPercent: Option<real>, tempC: Option<real>)

  const DefaultGpuDetails := GpuDetails(NoData, 0, NoData, NoData, None, None)

  /** The keywords that mark a hardware name or a temperature sensor as graphics. */
  const GpuKeywords: seq<string> := ["gpu", "graphics", "intel", "iris", "uhd", "hd graphics", "radeon", "nvidia", "vga"]

  // ---------------------------------------------------------------- the video-controller query

  /**
   * One pass of the loop over `Win32_VideoController`: the first record whose
   * fields convert is copied and ends the loop; one whose `AdapterRAM` does not
   * convert throws inside the loop's `try` and the next record is tried.
   */
  function VideoStep(rec: VideoRecord): Step<GpuDetails>
  {
    match UInt64Field(rec.adapterRam, 0)
    case Some(ram) =>
      Stop(GpuDetails(rec.name.GetOr(NoData), ram / BytesPerMB, rec.videoProcessor.GetOr(NoData),
                      rec.driverVersion.GetOr(NoData), None, None))
    case None => Continue
  }

  /** What the query leaves in `d`. */
  function FromVideoQuery(q: Query<VideoRecord>): (d: GpuDetails)
    ensures d.loadPercent.None? && d.tempC.None?
    ensures q.Ok? ==>
              forall k :: 0 <= k < |q.value| && ContinuesBefore(q.value, VideoStep, k) && VideoStep(q.value[k]).Stop? ==>
                d == VideoStep(q.value[k]).value
    ensures q.Error? || (q.Ok? && ContinuesBefore(q.value, VideoStep, |q.value|)) ==> d == DefaultGpuDetails
  {
    match q
    case Error => DefaultGpuDetails
    case Ok(recs) =>
      match Scan(recs, VideoStep)
      case Found(d) =>
        assert exists k :: 0 <= k < |recs| && VideoStep(recs[k]) == Stop(d);
        d
      case _ => DefaultGpuDetails
  }

  /**
   * The first controller whose adapter RAM converts is used: the ones before
   * it are skipped and the ones after it ignored.
   */
  lemma FirstControllerWins(recs: seq<VideoRecord>, k: nat)
    requires k < |recs| && UInt64Field(recs[k].adapterRam, 0).Some?
    requires forall j :: 0 <= j < k ==> UInt64Field(recs[j].adapterRam, 0).None?
    ensures var d := FromVideoQuery(Ok(recs));
            && d.name == recs[k].name.GetOr(NoData)
            && d.adapterRamMB * BytesPerMB <= recs[k].adapterRam.GetOr(0) < (d.adapterRamMB + 1) * BytesPerMB
            && d.videoProcessor == recs[k].videoProcessor.GetOr(NoData)
            && d.driverVersion == recs[k].driverVersion.GetOr(NoData)
  {
    var rec := recs[k];
    var ram := rec.adapterRam.GetOr(0);
    var d := GpuDetails(rec.name.GetOr(NoData), ram / BytesPerMB, rec.videoProcessor.GetOr(NoData),
                        rec.driverVersion.GetOr(NoData), None, None);
    assert VideoStep(rec) == Stop(d);
    assert ContinuesBefore(recs, VideoStep, k);
    ScanFound(recs, VideoStep, k, d);
    WholeMegabytes(ram);
  }

  // ---------------------------------------------------------------- the GPU hardware

  /** A GPU by category, or by a keyword in its lower-cased name. */
  predicate LikelyGpu(h: Hardware)
  {
    IsGpuType(h.kind) || ContainsAny(Lower(h.name.GetOr("")), GpuKeywords)
  }

  /** The loop that picks the first GPU-like hardware whose `Update()` returns normally. */
  function GpuHardwareStep(h: Hardware): Step<Hardware>
  {
    if h.updates && LikelyGpu(h) then Stop(h) else Continue
  }

  /** `sensors.FirstOrDefault(s => s.SensorType == kind)`. */
  function FirstOfKind(ss: seq<Sensor>, kind: SensorType): (r: Option<Sensor>)
    ensures r.Some? ==> r.value in ss && r.value.kind == kind
    ensures r.None? <==> forall s :: s in ss ==> s.kind != kind
    ensures r.Some? ==> exists i :: 0 <= i < |ss| && ss[i] == r.value && forall j :: 0 <= j < i ==> ss[j].kind != kind
    decreases |ss|
  {
    if |ss| == 0 then None
    else if ss[0].kind == kind then Some(ss[0])
    else
      var r := FirstOfKind(ss[1..], kind);
      assert forall j :: 1 <= j < |ss| ==> ss[j] == ss[1..][j - 1];
      assert forall s :: s in ss ==> s == ss[0] || s in ss[1..];
      r
  }

  /** The rounded value of the first sensor of a kind; null when that sensor has none. */
  function FirstReading(h: Hardware, kind: SensorType): Option<real>
  {
    match FirstOfKind(h.sensors, kind)
    case Some(s) => Reading(s)
    case None => None
  }

  /** What the chosen GPU hardware adds: a name if none yet, its first load and first temperature. */
  function MergeHardware(d: GpuDetails, h: Hardware): (r: GpuDetails)
    requires d.loadPercent.None? && d.tempC.None?
    ensures r.loadPercent == FirstReading(h, Load)
    ensures r.tempC == FirstReading(h, Temperature)
    ensures !Unnamed(d.name) ==> r.name == d.name
    ensures Unnamed(d.name) ==> r.name == h.name.GetOr(d.name)
    ensures r.(name := d.name, loadPercent := None, tempC := None) == d
  {
    var named := if Unnamed(d.name) then d.(name := h.name.GetOr(d.name)) else d;
    named.(loadPercent := FirstReading(h, Load), tempC := FirstReading(h, Temperature))
  }

  // ---------------------------------------------------------------- the temperature keyword scan

  /** A temperature sensor whose lower-cased name holds a graphics keyword. */
  function GpuSensorStep(s: Sensor): Step<Sensor>
  {
    if s.kind == Temperature && ContainsAny(Lower(s.name.GetOr("")), GpuKeywords) then Stop(s) else Continue
  }

  /**
   * Where the keyword scan takes its temperature from: the first hardware
   * that updates and whose first matching sensor has a value. A matching
   * sensor without a value ends the scan of its own hardware only.
   */
  function KeywordTempStep(h: Hardware): Step<real>
  {
    if !h.updates then Continue
    else
      match Scan(h.sensors, GpuSensorStep)
      case Found(s) => if s.value.Some? then Stop(Round1(s.value.value)) else Continue
      case _ => Continue
  }

  /** The outcome of a temperature search as a nullable value. */
  function AsReading(o: Outcome<real>): Option<real>
  {
    match o
    case Found(v) => Some(v)
    case _ => None
  }

  /**
   * The fallback loop as written: it walks the hardware, lets each matching
   * sensor name the adapter when it has no name yet, and stops once a
   * temperature is found.
   */
  function KeywordFallback(hw: seq<Hardware>, d: GpuDetails): (r: GpuDetails)
    requires d.tempC.None?
    ensures r.tempC == AsReading(Scan(hw, KeywordTempStep))
    ensures r.(name := d.name, tempC := None) == d
    ensures !Unnamed(d.name) ==> r.name == d.name
    ensures Unnamed(d.name) && |hw| > 0 && HasGpuSensor(hw[0]) && UsableName(hw[0]) ==> r.name == hw[0].name.value
    decreases |hw|
  {
    if |hw| == 0 then d
    else
      var h := hw[0];
      if !h.updates then KeywordFallback(hw[1..], d)
      else
        match Scan(h.sensors, GpuSensorStep)
        case Found(s) =>
          var withTemp := if s.value.Some? then d.(tempC := Some(Round1(s.value.value))) else d;
          var named := if Unnamed(withTemp.name) then withTemp.(name := h.name.GetOr(withTemp.name)) else withTemp;
          if named.tempC.Some? then named else KeywordFallback(hw[1..], named)
        case _ => KeywordFallback(hw[1..], d)
  }

  /** Hardware that updates and has a temperature sensor matching a graphics keyword. */
  predicate HasGpuSensor(h: Hardware)
  {
    h.updates && Scan(h.sensors, GpuSensorStep).Found?
  }

  /** A hardware name that is present, non-empty and not "—". */
  predicate UsableName(h: Hardware)
  {
    h.name.Some? && !Unnamed(h.name.value)
  }

  /**
   * The first hardware with a matching sensor names an unnamed adapter: the
   * hardware before it neither stop the scan nor rename, and once the name is
   * usable no later hardware changes it.
   */
  lemma {:induction false} KeywordFallbackNames(hw: seq<Hardware>, d: GpuDetails, k: nat)
    requires d.tempC.None? && Unnamed(d.name)
    requires k < |hw| && HasGpuSensor(hw[k]) && UsableName(hw[k])
    requires forall j :: 0 <= j < k ==> !HasGpuSensor(hw[j])
    ensures KeywordFallback(hw, d).name == hw[k].name.value
    decreases k
  {
    if k > 0 {
      assert !HasGpuSensor(hw[0]);
      assert KeywordFallback(hw, d) == KeywordFallback(hw[1..], d);
      KeywordFallbackNames(hw[1..], d, k - 1);
    }
  }

  /**
   * What the first hardware with a matching sensor does, whatever its name: an
   * unnamed adapter takes that hardware's name (or keeps its own when the
   * hardware has none), and the scan stops there when the sensor has a value
   * and goes on with the rest of the hardware otherwise.
   */
  lemma {:induction false} KeywordFallbackAtFirstMatch(hw: seq<Hardware>, d: GpuDetails, k: nat)
    requires d.tempC.None?
    requires k < |hw| && HasGpuSensor(hw[k])
    requires forall j :: 0 <= j < k ==> !HasGpuSensor(hw[j])
    ensures var s := Scan(hw[k].sensors, GpuSensorStep).value;
            var named := if Unnamed(d.name) then d.(name := hw[k].name.GetOr(d.name)) else d;
            KeywordFallback(hw, d) ==
              if s.value.Some? then named.(tempC := Some(Round1(s.value.value)))
              else KeywordFallback(hw[k + 1..], named)
    decreases k
  {
    if k > 0 {
      assert !HasGpuSensor(hw[0]);
      assert KeywordFallback(hw, d) == KeywordFallback(hw[1..], d);
      KeywordFallbackAtFirstMatch(hw[1..], d, k - 1);
      assert hw[1..][k - 1] == hw[k];
      assert hw[1..][k..] == hw[k + 1..];
    }
  }

  /** Without any hardware with a matching sensor, the fallback changes nothing. */
  lemma {:induction false} KeywordFallbackNoMatch(hw: seq<Hardware>, d: GpuDetails)
    requires d.tempC.None?
    requires forall j :: 0 <= j < |hw| ==> !HasGpuSensor(hw[j])
    ensures KeywordFallback(hw, d) == d
    decreases |hw|
  {
    if |hw| > 0 {
      assert !HasGpuSensor(hw[0]);
      assert KeywordFallback(hw, d) == KeywordFallback(hw[1..], d);
      KeywordFallbackNoMatch(hw[1..], d);
    }
  }

  // ---------------------------------------------------------------- the getter

  /** The readings the first GPU-like hardware supplies, or none. */
  function ChosenHardware(hw: seq<Hardware>): Option<Hardware>
  {
    match Scan(hw, GpuHardwareStep)
    case Found(h) => Some(h)
    case _ => None
  }

  /**
   * `GetGpuDetails`: the static description from the first convertible video
   * controller, the live readings from the first GPU-like hardware, and a
   * keyword scan over all temperature sensors when no temperature was found.
   */
  function GetGpuDetails(video: Query<VideoRecord>, hw: seq<Hardware>): (r: GpuDetails)
    ensures var wmi := FromVideoQuery(video);
            && r.adapterRamMB == wmi.adapterRamMB
            && r.videoProcessor == wmi.videoProcessor
            && r.driverVersion == wmi.driverVersion
            && (!Unnamed(wmi.name) ==> r.name == wmi.name)
            && (Unnamed(wmi.name) && ChosenHardware(hw).Some? && UsableName(ChosenHardware(hw).value) ==>
                  r.name == ChosenHardware(hw).value.name.value)
    ensures ChosenHardware(hw).None? ==> r == KeywordFallback(hw, FromVideoQuery(video))
    ensures ChosenHardware(hw).Some? ==>
              var m := MergeHardware(FromVideoQuery(video), ChosenHardware(hw).value);
              r == if m.tempC.Some? then m else KeywordFallback(hw, m)
    ensures r.loadPercent == (match ChosenHardware(hw) case Some(h) => FirstReading(h, Load) case None => None)
    ensures ChosenHardware(hw).Some? && FirstReading(ChosenHardware(hw).value, Temperature).Some? ==>
              r.tempC == FirstReading(ChosenHardware(hw).value, Temperature)
    ensures ChosenHardware(hw).None? || FirstReading(ChosenHardware(hw).value, Temperature).None? ==>
              r.tempC == AsReading(Scan(hw, KeywordTempStep))
  {
    var wmi := FromVideoQuery(video);
    var merged := match ChosenHardware(hw) case Some(h) => MergeHardware(wmi, h) case None => wmi;
    if merged.tempC.None? then KeywordFallback(hw, merged) else merged
  }

  /** Without any GPU-like hardware, no load is reported. */
  lemma NoGpuNoLoad(video: Query<VideoRecord>, hw: seq<Hardware>)
    requires forall h :: h in hw ==> !LikelyGpu(h)
    ensures GetGpuDetails(video, hw).loadPercent.None?
  {
    assert ContinuesBefore(hw, GpuHardwareStep, |hw|) by {
      assert forall j :: 0 <= j < |hw| ==> hw[j] in hw;
    }
  }

  /** "hd graphics" adds nothing to the keyword list: any name holding it holds "graphics". */
  lemma HdGraphicsRedundant(s: string)
    ensures ContainsAny(s, GpuKeywords) <==> ContainsAny(s, GpuKeywords[..5] + GpuKeywords[6..])
  {
    var shorter := GpuKeywords[..5] + GpuKeywords[6..];
    assert shorter[1] == "graphics";
    if Contains(s, "hd graphics") {
      assert OccursAt("hd graphics", "graphics", 3);
      ContainsTransitive(s, "hd graphics", "graphics", 3);
    }
    assert forall k :: k in shorter ==> k in GpuKeywords;
  }
}
