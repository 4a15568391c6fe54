/** `GetRamInfo`, `GetRamModules` and `MemoryTypeToString` of the hardware reader. */
module MemoryReader {
  import opened Wrappers
  import opened Text
  import opened Rounding
  import opened Search
  import opened Sources

  /** The getter's triple: used percent (null when nothing answered), total and free. */
  datatype RamInfo = RamInfo(usedPercent: Option<real>, totalMB: real, freeMB: real)

  const NoRamInfo := RamInfo(None, 0.0, 0.0)

  /** `totalMB > 0 ? Math.Round(used / total * 100, 1) : 0`. */
  function UsedPercent(total: real, free: real): real
  {
    if total > 0.0 then Round1((total - free) / total * 100.0) else 0.0
  }

  /** Bytes to whole megabytes: `Math.Round(bytes / 1024.0 / 1024.0, 0)`. */
  function BytesToMB(bytes: nat): real
  {
    Round0(bytes as real / BytesPerMB as real)
  }

  /** The first path: both figures from one memory-status call. */
  function FromStatus(ms: MemoryStatus): RamInfo
  {
    var total := BytesToMB(ms.totalPhys);
    var free := BytesToMB(ms.availPhys);
    RamInfo(Some(UsedPercent(total, free)), total, free)
  }

  /** The second path: free from the "Available MBytes" counter, total from a second status call. */
  function FromCounter(availMB: real, ms: MemoryStatus): RamInfo
  {
    var total := BytesToMB(ms.totalPhys);
    var free := Round0(availMB);
    RamInfo(Some(UsedPercent(total, free)), total, free)
  }

  /** `FirstOrDefault` over data sensors whose lower-cased name contains `word`; a null name throws. */
  function DataStep(word: string, s: Sensor): Step<Sensor>
  {
    if s.kind != Data then Continue
    else
      match s.name
      case None => Abort
      case Some(n) => if Contains(Lower(n), word) then Stop(s) else Continue
  }

  function TotalStep(s: Sensor): Step<Sensor> { DataStep("total", s) }

  function UsedStep(s: Sensor): Step<Sensor> { DataStep("used", s) }

  /**
   * One pass of the loop over memory hardware. A throwing `Update()` or
   * lookup only skips this hardware; both sensors with values end the loop
   * with their raw readings.
   */
  function MemorySensorStep(h: Hardware): Step<RamInfo>
  {
    if h.kind != Memory || !h.updates then Continue
    else
      match (Scan(h.sensors, TotalStep), Scan(h.sensors, UsedStep))
      case (Found(total), Found(used)) =>
        if total.value.Some? && used.value.Some? then
          var t := total.value.value;
          var u := used.value.value;
          Stop(RamInfo(Some(if t > 0.0 then Round1(u / t * 100.0) else 0.0), t, t - u))
        else Continue
      case _ => Continue
  }

  /** The last resort: the first memory hardware with both readings, else "no data". */
  function SensorPath(hw: seq<Hardware>): (r: RamInfo)
    ensures forall k :: 0 <= k < |hw| && ContinuesBefore(hw, MemorySensorStep, k) && MemorySensorStep(hw[k]).Stop? ==>
              r == MemorySensorStep(hw[k]).value
    ensures ContinuesBefore(hw, MemorySensorStep, |hw|) ==> r == NoRamInfo
  {
    match Scan(hw, MemorySensorStep)
    case Found(info) => info
    case _ => NoRamInfo
  }

  /** Every reading the sensor path reports carries a percentage. */
  lemma SensorPathHasPercent(hw: seq<Hardware>)
    ensures SensorPath(hw).usedPercent.None? ==> SensorPath(hw) == NoRamInfo
  {
    if Scan(hw, MemorySensorStep).Found? {
      var info := Scan(hw, MemorySensorStep).value;
      var k :| 0 <= k < |hw| && MemorySensorStep(hw[k]) == Stop(info);
      assert info.usedPercent.Some?;
    }
  }

  /**
   * `GetRamInfo`. `first` and `second` are the outcomes of the two
   * `GetMemoryStatus` calls, `counter` that of the "Available MBytes" counter
   * (`Error` when it was never created or `NextValue` throws).
   */
  function GetRamInfo(first: Result<MemoryStatus>, counter: Result<real>, second: Result<MemoryStatus>, hw: seq<Hardware>): (r: RamInfo)
    ensures first.Ok? ==> r == FromStatus(first.value)
    ensures first.Error? && counter.Ok? && second.Ok? ==> r == FromCounter(counter.value, second.value)
    ensures first.Error? && (counter.Error? || second.Error?) ==> r == SensorPath(hw)
    ensures r.usedPercent.None? ==> r == NoRamInfo
  {
    SensorPathHasPercent(hw);
    if first.Ok? then FromStatus(first.value)
    else if counter.Ok? && second.Ok? then FromCounter(counter.value, second.value)
    else SensorPath(hw)
  }

  /**
   * The sensor path converts nothing: it reports the raw reading of the
   * first "total" data sensor and that reading minus the "used" one.
   */
  lemma SensorPathIsRaw(hw: seq<Hardware>, k: int, t: real, u: real)
    requires 0 <= k < |hw| && ContinuesBefore(hw, MemorySensorStep, k)
    requires hw[k].kind == Memory && hw[k].updates
    requires Scan(hw[k].sensors, TotalStep).Found? && Scan(hw[k].sensors, TotalStep).value.value == Some(t)
    requires Scan(hw[k].sensors, UsedStep).Found? && Scan(hw[k].sensors, UsedStep).value.value == Some(u)
    ensures GetRamInfo(Error, Error, Error, hw).totalMB == t
    ensures GetRamInfo(Error, Error, Error, hw).freeMB == t - u
  {
    assert MemorySensorStep(hw[k]).Stop?;
  }

  /**
   * The counter path runs only after the first status call threw, and needs a
   * second call to succeed: when the two calls agree, the counter never
   * decides anything.
   */
  lemma CounterPathNeedsSecondCall(status: Result<MemoryStatus>, c1: Result<real>, c2: Result<real>, hw: seq<Hardware>)
    ensures GetRamInfo(status, c1, status, hw) == GetRamInfo(status, c2, status, hw)
  {
  }

  /** When every source fails the result is "no data", not an error. */
  lemma AllSourcesFail(hw: seq<Hardware>)
    requires forall h :: h in hw ==> h.kind != Memory
    ensures GetRamInfo(Error, Error, Error, hw) == NoRamInfo
  {
    assert ContinuesBefore(hw, MemorySensorStep, |hw|) by {
      assert forall j :: 0 <= j < |hw| ==> hw[j] in hw;
    }
  }

  /** A consistent memory status gives a used percentage within [0, 100] and free at most total. */
  lemma StatusPercentWithinRange(ms: MemoryStatus)
    requires ms.availPhys <= ms.totalPhys
    ensures var r := FromStatus(ms);
            && r.usedPercent.Some? && 0.0 <= r.usedPercent.value <= 100.0
            && 0.0 <= r.freeMB <= r.totalMB
  {
    var total := BytesToMB(ms.totalPhys);
    var free := BytesToMB(ms.availPhys);
    Round0Monotone(0.0, ms.availPhys as real / BytesPerMB as real);
    Round0Monotone(ms.availPhys as real / BytesPerMB as real, ms.totalPhys as real / BytesPerMB as real);
    Round0OfInt(0);
    if total > 0.0 {
      PercentOfPart(total, free);
    } else {
      Round1OfInt(0);
    }
  }

  lemma PercentOfPart(total: real, free: real)
    requires 0.0 <= free <= total && total > 0.0
    ensures 0.0 <= Round1((total - free) / total * 100.0) <= 100.0
  {
    assert 0.0 <= (total - free) / total <= 1.0;
    Round1Percent((total - free) / total * 100.0);
  }

  /** 16384 MB total with 8192 MB free is 50 percent used. */
  lemma HalfUsedExample()
    ensures FromStatus(MemoryStatus(16384 * BytesPerMB, 8192 * BytesPerMB)) == RamInfo(Some(50.0), 16384.0, 8192.0)
  {
    assert (16384 * BytesPerMB) as real / BytesPerMB as real == 16384 as real;
    assert (8192 * BytesPerMB) as real / BytesPerMB as real == 8192 as real;
    Round0OfInt(16384);
    Round0OfInt(8192);
    Round1OfInt(50);
  }

  // ---------------------------------------------------------------- memory modules

  /** `MemoryTypeToString`: the SMBIOS codes the reader knows, otherwise "Тип <code>". */
  function MemoryTypeName(code: int): (r: string)
    ensures code == 20 ==> r == "DDR"
    ensures code == 21 ==> r == "DDR2"
    ensures code == 24 ==> r == "DDR3"
    ensures code == 26 ==> r == "DDR4"
    ensures code !in {20, 21, 24, 26} ==> r == UnknownTypePrefix + IntToString(code)
  {
    match code
    case 20 => "DDR"
    case 21 => "DDR2"
    case 24 => "DDR3"
    case 26 => "DDR4"
    case _ => UnknownTypePrefix + IntToString(code)
  }

  const UnknownTypePrefix: string := "Тип "

  /** An unknown code can be read back from its label. */
  lemma UnknownTypeRoundTrip(code: int)
    requires code !in {20, 21, 24, 26}
    ensures var r := MemoryTypeName(code);
            |r| > |UnknownTypePrefix| && r[..|UnknownTypePrefix|] == UnknownTypePrefix &&
            ParseInt(r[|UnknownTypePrefix|..]) == code
  {
    var r := MemoryTypeName(code);
    assert r[|UnknownTypePrefix|..] == IntToString(code);
    IntToStringRoundTrip(code);
  }

  /** Different codes never share a label. */
  lemma MemoryTypeNameInjective(a: int, b: int)
    requires MemoryTypeName(a) == MemoryTypeName(b)
    ensures a == b
  {
    var known := {20, 21, 24, 26};
    if a !in known && b !in known {
      var n := |UnknownTypePrefix|;
      assert MemoryTypeName(a)[n..] == IntToString(a);
      assert MemoryTypeName(b)[n..] == IntToString(b);
      IntToStringInjective(a, b);
    }
  }

  /** One entry of the module list. */
  datatype RamModule = RamModule(bank: string, capacityMB: nat, speedMHz: nat, manufacturer: string, partNumber: string, memoryType: string)

  /** The memory-type column: "—" when null, the label otherwise; `None` when `Convert.ToInt32` throws. */
  function MemoryTypeField(f: Option<int>): Option<string>
  {
    match f
    case None => Some(NoData)
    case Some(v) => if ToInt32(v).Some? then Some(MemoryTypeName(v)) else None
  }

  /** The body of the per-record `try`: a module, or `None` when a conversion throws and the record is skipped. */
  function ModuleOf(rec: MemoryRecord): (r: Option<RamModule>)
    ensures r.Some? <==> UInt64Field(rec.capacity, 0).Some? && UInt32Field(rec.speed, 0).Some? && MemoryTypeField(rec.memoryType).Some?
    ensures r.Some? ==> && r.value.bank == rec.bankLabel.GetOr(NoData)
                        && r.value.manufacturer == rec.manufacturer.GetOr(NoData)
                        && r.value.partNumber == rec.partNumber.GetOr(NoData)
                        && r.value.speedMHz == rec.speed.GetOr(0)
    ensures r.Some? ==> r.value.capacityMB == (if rec.capacity.Some? then rec.capacity.value / BytesPerMB else 0)
    ensures r.Some? ==> r.value.memoryType == (if rec.memoryType.Some? then MemoryTypeName(rec.memoryType.value) else NoData)
  {
    match (UInt64Field(rec.capacity, 0), UInt32Field(rec.speed, 0), MemoryTypeField(rec.memoryType))
    case (Some(cap), Some(speed), Some(mt)) =>
      Some(RamModule(rec.bankLabel.GetOr(NoData), cap / BytesPerMB, speed,
                     rec.manufacturer.GetOr(NoData), rec.partNumber.GetOr(NoData), mt))
    case _ => None
  }

  /** Capacity is truncated, not rounded, to whole megabytes. */
  lemma CapacityTruncates(rec: MemoryRecord)
    requires ModuleOf(rec).Some? && rec.capacity.Some?
    ensures var mb := ModuleOf(rec).value.capacityMB;
            mb * BytesPerMB <= rec.capacity.value < (mb + 1) * BytesPerMB
  {
  }

  /** The records' modules, skipping those whose conversion throws, order kept. */
  function Modules(recs: seq<MemoryRecord>): (r: seq<RamModule>)
    ensures |r| <= |recs|
    decreases |recs|
  {
    if |recs| == 0 then []
    else
      match ModuleOf(recs[0])
      case Some(m) => [m] + Modules(recs[1..])
      case None => Modules(recs[1..])
  }

  /** Every listed module comes from some record, and every record that converts is listed. */
  lemma {:induction false} ModulesMembers(recs: seq<MemoryRecord>)
    ensures forall m :: m in Modules(recs) <==> exists i :: 0 <= i < |recs| && ModuleOf(recs[i]) == Some(m)
    decreases |recs|
  {
    if |recs| > 0 {
      ModulesMembers(recs[1..]);
      assert forall i :: 1 <= i < |recs| ==> recs[i] == recs[1..][i - 1];
      forall m | exists i :: 0 <= i < |recs| && ModuleOf(recs[i]) == Some(m)
        ensures m in Modules(recs)
      {
        var i :| 0 <= i < |recs| && ModuleOf(recs[i]) == Some(m);
        if i > 0 {
          assert ModuleOf(recs[1..][i - 1]) == Some(m);
        }
      }
    }
  }

  /** When no record fails, there is exactly one module per record, in record order. */
  lemma {:induction false} ModulesAllConvertible(recs: seq<MemoryRecord>)
    requires forall i :: 0 <= i < |recs| ==> ModuleOf(recs[i]).Some?
    ensures |Modules(recs)| == |recs|
    ensures forall i :: 0 <= i < |recs| ==> Modules(recs)[i] == ModuleOf(recs[i]).value
    decreases |recs|
  {
    if |recs| > 0 {
      assert forall i :: 1 <= i < |recs| ==> recs[i] == recs[1..][i - 1];
      ModulesAllConvertible(recs[1..]);
    }
  }

  /** The modules of two runs of records are those of each run, in order. */
  lemma {:induction false} ModulesAppend(recs: seq<MemoryRecord>, more: seq<MemoryRecord>)
    ensures Modules(recs + more) == Modules(recs) + Modules(more)
    decreases |recs|
  {
    if |recs| > 0 {
      assert (recs + more)[0] == recs[0];
      assert (recs + more)[1..] == recs[1..] + more;
      ModulesAppend(recs[1..], more);
    } else {
      assert recs + more == more;
    }
  }

  /**
   * `GetRamModules`: the list is declared before the `try`, so whatever was
   * collected before the enumeration threw is returned; a searcher that
   * throws at once gives an empty list.
   */
  function GetRamModules(q: Listing<MemoryRecord>): (r: seq<RamModule>)
    ensures |r| <= |q.records|
    ensures q.records == [] ==> r == []
    ensures forall m :: m in r <==> exists i :: 0 <= i < |q.records| && ModuleOf(q.records[i]) == Some(m)
  {
    ModulesMembers(q.records);
    Modules(q.records)
  }

  /**
   * An enumeration that throws partway keeps the modules of the records it
   * yielded: they are exactly the first modules the uninterrupted enumeration
   * would have listed.
   */
  lemma ThrowKeepsCollected(recs: seq<MemoryRecord>, rest: seq<MemoryRecord>)
    ensures GetRamModules(Listing(recs + rest, false)) == GetRamModules(Listing(recs, true)) + Modules(rest)
  {
    ModulesAppend(recs, rest);
  }

  /** A record that fails to convert is dropped without affecting its neighbours. */
  lemma BadModuleSkipped(before: seq<MemoryRecord>, bad: MemoryRecord, after: seq<MemoryRecord>)
    requires ModuleOf(bad).None?
    ensures Modules(before + [bad] + after) == Modules(before + after)
    decreases |before|
  {
    if |before| == 0 {
      assert (before + [bad] + after)[0] == bad;
      assert (before + [bad] + after)[1..] == after;
      assert before + after == after;
    } else {
      assert (before + [bad] + after)[1..] == before[1..] + [bad] + after;
      assert (before + after)[1..] == before[1..] + after;
      BadModuleSkipped(before[1..], bad, after);
    }
  }
}
