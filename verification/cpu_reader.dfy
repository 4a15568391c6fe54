/** `GetCpuLoad` and `GetCpuDetails` of the hardware reader. */
module CpuReader {
  import opened Wrappers
  import opened Text
  import opened Rounding
  import opened Search
  import opened Sources

  /**
   * One test of the `FirstOrDefault` looking for the total-load sensor: a
   * load sensor whose lower-cased name contains "total". Lower-casing the
   * null name of a load sensor throws.
   */
  function TotalLoadStep(s: Sensor): Step<Sensor>
  {
    if s.kind != Load then Continue
    else
      match s.name
      case None => Abort
      case Some(n) => if Contains(Lower(n), "total") then Stop(s) else Continue
  }

  /**
   * One pass of the sensor loop over CPU hardware: a non-CPU is filtered out,
   * an `Update()` or a sensor lookup that throws leaves the whole loop, and a
   * total-load sensor with a value returns it rounded.
   */
  function CpuLoadStep(h: Hardware): Step<real>
  {
    if h.kind != Cpu then Continue
    else if !h.updates then Abort
    else
      match Scan(h.sensors, TotalLoadStep)
      case Aborted => Abort
      case Exhausted => Continue
      case Found(s) => if s.value.Some? then Stop(Round1(s.value.value)) else Continue
  }

  /**
   * The sensor tree first, then the "% Processor Time" counter
   * (`counter` is `Error` when it was never created or `NextValue` throws).
   */
  function GetCpuLoad(hw: seq<Hardware>, counter: Result<real>): (r: Option<real>)
    ensures forall k :: 0 <= k < |hw| && ContinuesBefore(hw, CpuLoadStep, k) && CpuLoadStep(hw[k]).Stop? ==>
              r == Some(CpuLoadStep(hw[k]).value)
    ensures (forall k :: 0 <= k < |hw| && ContinuesBefore(hw, CpuLoadStep, k) ==> !CpuLoadStep(hw[k]).Stop?) ==>
              r == Round1Opt(counter.ToOption())
    ensures r.None? <==> !Scan(hw, CpuLoadStep).Found? && counter.Error?
  {
    match Scan(hw, CpuLoadStep)
    case Found(v) => Some(v)
    case _ => Round1Opt(counter.ToOption())
  }

  /** A CPU whose first total-load sensor carries a value decides, whatever the counter says. */
  lemma CpuLoadFromFirstCpu(hw: seq<Hardware>, counter: Result<real>, k: int, i: int, v: real)
    requires 0 <= k < |hw| && hw[k].kind == Cpu && hw[k].updates
    requires forall j :: 0 <= j < k ==> hw[j].kind != Cpu
    requires 0 <= i < |hw[k].sensors| && ContinuesBefore(hw[k].sensors, TotalLoadStep, i)
    requires TotalLoadStep(hw[k].sensors[i]).Stop? && hw[k].sensors[i].value == Some(v)
    ensures GetCpuLoad(hw, counter) == Some(Round1(v))
  {
    assert CpuLoadStep(hw[k]) == Stop(Round1(v));
    ScanFound(hw, CpuLoadStep, k, Round1(v));
  }

  /** Without any CPU hardware the counter alone decides. */
  lemma CpuLoadWithoutCpuUsesCounter(hw: seq<Hardware>, counter: Result<real>)
    requires forall j :: 0 <= j < |hw| ==> hw[j].kind != Cpu
    ensures GetCpuLoad(hw, counter) == (if counter.Ok? then Some(Round1(counter.value)) else None)
  {
    assert ContinuesBefore(hw, CpuLoadStep, |hw|);
  }

  /** A CPU whose `Update()` throws ends the sensor stage, even if a later CPU could answer. */
  lemma CpuLoadUpdateFailureFallsBack(hw: seq<Hardware>, counter: Result<real>)
    requires |hw| > 0 && hw[0].kind == Cpu && !hw[0].updates
    ensures GetCpuLoad(hw, counter) == Round1Opt(counter.ToOption())
  {
    assert Scan(hw, CpuLoadStep) == Aborted;
  }

  /** `CpuDetails`: a name and five counters, defaults "—" and 0. */
  datatype CpuDetails = CpuDetails(name: string, cores: int, threads: int, maxClockMHz: int, l2CacheKB: int, l3CacheKB: int)

  const DefaultCpuDetails := CpuDetails(NoData, 0, 0, 0, 0, 0)

  /** All five counters of the record convert to `int`. */
  predicate Convertible(p: ProcessorRecord)
  {
    && Int32Field(p.cores, 0).Some?
    && Int32Field(p.logicalProcessors, 0).Some?
    && Int32Field(p.maxClockSpeed, 0).Some?
    && Int32Field(p.l2CacheSize, 0).Some?
    && Int32Field(p.l3CacheSize, 0).Some?
  }

  /**
   * The assignments from the first `Win32_Processor` record, in source order.
   * A conversion that throws leaves the try block, so the fields assigned
   * before it keep their new values and the later ones their defaults.
   */
  function FromProcessor(p: ProcessorRecord): (d: CpuDetails)
    ensures d.name == p.name.GetOr(NoData)
    ensures Convertible(p) ==>
              && d.cores == p.cores.GetOr(0) && d.threads == p.logicalProcessors.GetOr(0)
              && d.maxClockMHz == p.maxClockSpeed.GetOr(0)
              && d.l2CacheKB == p.l2CacheSize.GetOr(0) && d.l3CacheKB == p.l3CacheSize.GetOr(0)
    ensures Int32Field(p.cores, 0).None? ==> d == DefaultCpuDetails.(name := d.name)
    ensures d.cores == (if Int32Field(p.cores, 0).Some? then p.cores.GetOr(0) else 0)
    ensures d.threads ==
              (if Int32Field(p.cores, 0).Some? && Int32Field(p.logicalProcessors, 0).Some?
               then p.logicalProcessors.GetOr(0) else 0)
    ensures d.maxClockMHz ==
              (if Int32Field(p.cores, 0).Some? && Int32Field(p.logicalProcessors, 0).Some?
                  && Int32Field(p.maxClockSpeed, 0).Some?
               then p.maxClockSpeed.GetOr(0) else 0)
    ensures d.l2CacheKB ==
              (if Int32Field(p.cores, 0).Some? && Int32Field(p.logicalProcessors, 0).Some?
                  && Int32Field(p.maxClockSpeed, 0).Some? && Int32Field(p.l2CacheSize, 0).Some?
               then p.l2CacheSize.GetOr(0) else 0)
    ensures d.l3CacheKB == (if Convertible(p) then p.l3CacheSize.GetOr(0) else 0)
  {
    var named := DefaultCpuDetails.(name := p.name.GetOr(NoData));
    match Int32Field(p.cores, named.cores)
    case None => named
    case Some(cores) =>
      var withCores := named.(cores := cores);
      match Int32Field(p.logicalProcessors, withCores.threads)
      case None => withCores
      case Some(threads) =>
        var withThreads := withCores.(threads := threads);
        match Int32Field(p.maxClockSpeed, withThreads.maxClockMHz)
        case None => withThreads
        case Some(clock) =>
          var withClock := withThreads.(maxClockMHz := clock);
          match Int32Field(p.l2CacheSize, withClock.l2CacheKB)
          case None => withClock
          case Some(l2) =>
            var withL2 := withClock.(l2CacheKB := l2);
            match Int32Field(p.l3CacheSize, withL2.l3CacheKB)
            case None => withL2
            case Some(l3) => withL2.(l3CacheKB := l3)
  }

  /** What the WMI query leaves in `res`: the first record only, or the defaults. */
  function FromProcessorQuery(q: Query<ProcessorRecord>): CpuDetails
  {
    match q
    case Ok(records) => if |records| > 0 then FromProcessor(records[0]) else DefaultCpuDetails
    case Error => DefaultCpuDetails
  }

  /** The name fallback's loop: the first CPU whose `Update()` returns normally. */
  function CpuNameStep(h: Hardware): Step<Option<string>>
  {
    if h.kind == Cpu && h.updates then Stop(h.name) else Continue
  }

  /**
   * The processor query supplies everything; the sensor tree
   * only supplies a name, and only when the query left none.
   */
  function GetCpuDetails(processors: Query<ProcessorRecord>, hw: seq<Hardware>): (r: CpuDetails)
    ensures r.(name := "") == FromProcessorQuery(processors).(name := "")
    ensures !Unnamed(FromProcessorQuery(processors).name) ==> r.name == FromProcessorQuery(processors).name
    ensures Unnamed(FromProcessorQuery(processors).name) ==>
              forall k :: 0 <= k < |hw| && ContinuesBefore(hw, CpuNameStep, k) && hw[k].kind == Cpu && hw[k].updates ==>
                r.name == hw[k].name.GetOr(FromProcessorQuery(processors).name)
    ensures Unnamed(FromProcessorQuery(processors).name) && (forall h :: h in hw ==> !(h.kind == Cpu && h.updates)) ==>
              r.name == FromProcessorQuery(processors).name
  {
    var res := FromProcessorQuery(processors);
    if Unnamed(res.name) then
      match Scan(hw, CpuNameStep)
      case Found(n) => res.(name := n.GetOr(res.name))
      case _ => res
    else res
  }

  /** Records after the first never matter. */
  lemma CpuDetailsUsesFirstRecordOnly(p: ProcessorRecord, rest1: seq<ProcessorRecord>, rest2: seq<ProcessorRecord>, hw: seq<Hardware>)
    ensures GetCpuDetails(Ok([p] + rest1), hw) == GetCpuDetails(Ok([p] + rest2), hw)
  {
  }

  /** When the query fails, every counter keeps its default of 0. */
  lemma CpuDetailsQueryFailure(hw: seq<Hardware>)
    ensures var r := GetCpuDetails(Error, hw);
            r.cores == 0 && r.threads == 0 && r.maxClockMHz == 0 && r.l2CacheKB == 0 && r.l3CacheKB == 0
  {
  }
}
