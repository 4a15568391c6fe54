/**
 * The main window's once-a-second tick: read CPU load, RAM use and GPU load, push
 * them (null read as 0) onto the three histories, show the averages, latch
 * `gotData` on the first non-zero reading, and stop the timer on the first exception.
 */
module Monitor {
  import opened Wrappers
  import opened Stats
  import opened History
  import opened Sources
  import CpuReader
  import MemoryReader
  import GpuReader

  /** The three percentages one tick reads; `None` is a getter's null. */
  datatype Sample = Sample(cpuLoad: Option<real>, ramPercent: Option<real>, gpuLoad: Option<real>)

  /**
   * How one tick ended: it ran through, or an exception reached the handler
   * before the histories were pushed, or after (while the window was being updated).
   */
  datatype TickEvent = Completed(sample: Sample) | FailedBeforePush | FailedAfterPush(sample: Sample)

  /** The text of the status line. */
  datatype Status = Initialising | Receiving | Failed

  datatype MonitorState = MonitorState(
    cpu: seq<real>, ram: seq<real>, gpu: seq<real>,
    gotData: bool, running: bool, status: Status)

  /** The window just after the timer was started. */
  const Start := MonitorState([], [], [], false, true, Initialising)

  /**
   * One tick's readings, taken from the hardware reader's three getters. Each
   * getter updates the hardware again, so each reads its own snapshot of the
   * sensor tree: which hardware throws and what the sensors hold may differ
   * between the three calls.
   */
  function Read(cpuTree: seq<Hardware>, cpuCounter: Result<real>,
                first: Result<MemoryStatus>, ramCounter: Result<real>, second: Result<MemoryStatus>,
                ramTree: seq<Hardware>, video: Query<VideoRecord>, gpuTree: seq<Hardware>): (s: Sample)
    ensures s.cpuLoad == CpuReader.GetCpuLoad(cpuTree, cpuCounter)
    ensures s.ramPercent == MemoryReader.GetRamInfo(first, ramCounter, second, ramTree).usedPercent
    ensures s.gpuLoad == GpuReader.GetGpuDetails(video, gpuTree).loadPercent
  {
    Sample(CpuReader.GetCpuLoad(cpuTree, cpuCounter),
           MemoryReader.GetRamInfo(first, ramCounter, second, ramTree).usedPercent,
           GpuReader.GetGpuDetails(video, gpuTree).loadPercent)
  }

  /** With no hardware and every system source failing, a tick reads nothing and cannot latch `gotData`. */
  lemma SilentMachineReadsNothing(video: Query<VideoRecord>)
    ensures Read([], Error, Error, Error, Error, [], video, []) == Sample(None, None, None)
    ensures !HasData(Read([], Error, Error, Error, Error, [], video, []))
  {
    CpuReader.CpuLoadWithoutCpuUsesCounter([], Error);
    MemoryReader.AllSourcesFail([]);
    GpuReader.NoGpuNoLoad(video, []);
  }

  /** The values pushed and shown for a sample: a null reading counts as 0. */
  function CpuValue(s: Sample): real { s.cpuLoad.GetOr(0.0) }
  function RamValue(s: Sample): real { s.ramPercent.GetOr(0.0) }
  function GpuValue(s: Sample): real { s.gpuLoad.GetOr(0.0) }

  /** The condition that latches `gotData`: some reading is strictly positive. */
  predicate HasData(s: Sample)
  {
    CpuValue(s) > 0.0 || RamValue(s) > 0.0 || GpuValue(s) > 0.0
  }

  /** Pushing all three readings of a sample, capacity 30 each. */
  function PushSample(st: MonitorState, s: Sample): (r: MonitorState)
    ensures r.gotData == st.gotData && r.running == st.running && r.status == st.status
  {
    st.(cpu := Push(st.cpu, CpuValue(s), Capacity),
        ram := Push(st.ram, RamValue(s), Capacity),
        gpu := Push(st.gpu, GpuValue(s), Capacity))
  }

  /** One timer tick; a stopped timer delivers no more ticks. */
  function Tick(st: MonitorState, e: TickEvent): (r: MonitorState)
    ensures r.running <==> st.running && e.Completed?
    ensures r.gotData <==> st.gotData || (st.running && e.Completed? && HasData(e.sample))
    ensures !st.running ==> r == st
    ensures st.running && e.Completed? ==> r.running && r == PushSample(st, e.sample).(
              gotData := st.gotData || HasData(e.sample),
              status := if !st.gotData && HasData(e.sample) then Receiving else st.status)
    ensures st.running && e.FailedBeforePush? ==> r == st.(running := false, status := Failed)
    ensures st.running && e.FailedAfterPush? ==> r == PushSample(st, e.sample).(running := false, status := Failed)
  {
    if !st.running then st
    else match e
      case Completed(s) =>
        var pushed := PushSample(st, s);
        if !st.gotData && HasData(s) then pushed.(gotData := true, status := Receiving) else pushed
      case FailedBeforePush =>
        st.(running := false, status := Failed)
      case FailedAfterPush(s) =>
        PushSample(st, s).(running := false, status := Failed)
  }

  /** A run of ticks, oldest first. */
  function Run(st: MonitorState, es: seq<TickEvent>): MonitorState
    decreases |es|
  {
    if |es| == 0 then st else Tick(Run(st, es[..|es| - 1]), es[|es| - 1])
  }

  /** The averages shown under the gauges and in the summary line. */
  datatype Averages = Averages(cpu: real, ram: real, gpu: real)

  function AveragesOf(st: MonitorState): Averages
  {
    Averages(Average(st.cpu), Average(st.ram), Average(st.gpu))
  }

  /** The three histories have the same length, never more than 30. */
  predicate Valid(st: MonitorState)
  {
    |st.cpu| == |st.ram| == |st.gpu| <= Capacity
  }

  lemma TickKeepsValid(st: MonitorState, e: TickEvent)
    requires Valid(st)
    ensures Valid(Tick(st, e))
  {
  }

  lemma {:induction false} RunKeepsValid(st: MonitorState, es: seq<TickEvent>)
    requires Valid(st)
    ensures Valid(Run(st, es))
    decreases |es|
  {
    if |es| > 0 {
      RunKeepsValid(st, es[..|es| - 1]);
      TickKeepsValid(Run(st, es[..|es| - 1]), es[|es| - 1]);
    }
  }

  /** Once the timer has stopped, further ticks change nothing. */
  lemma {:induction false} StoppedIsFinal(st: MonitorState, es: seq<TickEvent>)
    requires !st.running
    ensures Run(st, es) == st
    decreases |es|
  {
    if |es| > 0 {
      StoppedIsFinal(st, es[..|es| - 1]);
    }
  }

  /** The timer keeps running exactly as long as every tick has completed. */
  lemma {:induction false} RunningIffAllCompleted(es: seq<TickEvent>)
    ensures Run(Start, es).running <==> forall i :: 0 <= i < |es| ==> es[i].Completed?
    decreases |es|
  {
    if |es| > 0 {
      var init := es[..|es| - 1];
      var last := es[|es| - 1];
      RunningIffAllCompleted(init);
      assert Run(Start, es).running == (Run(Start, init).running && last.Completed?);
      if forall i :: 0 <= i < |es| ==> es[i].Completed? {
        assert forall i :: 0 <= i < |init| ==> init[i].Completed? by {
          forall i | 0 <= i < |init| ensures init[i].Completed? {
            assert init[i] == es[i];
          }
        }
      } else {
        var k :| 0 <= k < |es| && !es[k].Completed?;
        if k < |init| {
          assert init[k] == es[k];
        }
      }
    }
  }

  /** A latched `gotData` is never cleared. */
  lemma {:induction false} GotDataLatches(st: MonitorState, es: seq<TickEvent>)
    requires st.gotData
    ensures Run(st, es).gotData
    decreases |es|
  {
    if |es| > 0 {
      GotDataLatches(st, es[..|es| - 1]);
    }
  }

  /** Tick `i` completed and every tick before it completed too. */
  ghost predicate CompletedUpTo(es: seq<TickEvent>, i: int)
  {
    0 <= i < |es| && forall j :: 0 <= j <= i ==> es[j].Completed?
  }

  /**
   * `gotData` is set exactly when some tick that completed while the timer was
   * still running saw a positive reading.
   */
  lemma {:induction false} GotDataMeaning(es: seq<TickEvent>)
    ensures Run(Start, es).gotData <==>
            exists i :: CompletedUpTo(es, i) && HasData(es[i].sample)
    decreases |es|
  {
    if |es| > 0 {
      var init := es[..|es| - 1];
      var last := |es| - 1;
      GotDataMeaning(init);
      assert forall i :: 0 <= i < |init| ==> init[i] == es[i];
      assert forall i :: CompletedUpTo(init, i) <==> 0 <= i < last && CompletedUpTo(es, i);
      RunningIffAllCompleted(init);
      if Run(Start, es).gotData && !Run(Start, init).gotData {
        assert CompletedUpTo(es, last);
      }
    }
  }

  /** The CPU values a run of completed ticks pushes, oldest first. */
  function CpuSeries(es: seq<TickEvent>): (r: seq<real>)
    requires forall i :: 0 <= i < |es| ==> es[i].Completed?
    ensures |r| == |es|
    ensures forall i :: 0 <= i < |es| ==> r[i] == CpuValue(es[i].sample)
  {
    seq(|es|, i requires 0 <= i < |es| => CpuValue(es[i].sample))
  }

  /** While every tick completes, the CPU history is the newest 30 of the loads read, nulls as 0. */
  lemma {:induction false} CpuHistoryIsRecentLoads(es: seq<TickEvent>)
    requires forall i :: 0 <= i < |es| ==> es[i].Completed?
    ensures Run(Start, es).cpu == Recent(CpuSeries(es), Capacity)
    decreases |es|
  {
    if |es| > 0 {
      var init := es[..|es| - 1];
      assert forall i :: 0 <= i < |init| ==> init[i] == es[i];
      CpuHistoryIsRecentLoads(init);
      RunningIffAllCompleted(init);
      assert CpuSeries(es) == CpuSeries(init) + [CpuValue(es[|es| - 1].sample)];
      PushRecent(CpuSeries(init), CpuValue(es[|es| - 1].sample), Capacity);
    }
  }

  /** A sample whose present readings are all percentages. */
  predicate PercentSample(s: Sample)
  {
    0.0 <= CpuValue(s) <= 100.0 && 0.0 <= RamValue(s) <= 100.0 && 0.0 <= GpuValue(s) <= 100.0
  }

  /** All three histories hold percentages. */
  ghost predicate PercentHistories(st: MonitorState)
  {
    AllWithin(st.cpu, 0.0, 100.0) && AllWithin(st.ram, 0.0, 100.0) && AllWithin(st.gpu, 0.0, 100.0)
  }

  lemma TickKeepsPercentages(st: MonitorState, e: TickEvent)
    requires PercentHistories(st)
    requires e.Completed? || e.FailedAfterPush? ==> PercentSample(e.sample)
    ensures PercentHistories(Tick(st, e))
  {
    if st.running && !e.FailedBeforePush? {
      var s := e.sample;
      PushWithin(st.cpu, CpuValue(s), Capacity, 0.0, 100.0);
      PushWithin(st.ram, RamValue(s), Capacity, 0.0, 100.0);
      PushWithin(st.gpu, GpuValue(s), Capacity, 0.0, 100.0);
    }
  }

  /** When every reading is a percentage, every average shown is a percentage. */
  lemma {:induction false} AveragesArePercentages(es: seq<TickEvent>)
    requires forall i :: 0 <= i < |es| && !es[i].FailedBeforePush? ==> PercentSample(es[i].sample)
    ensures PercentHistories(Run(Start, es))
    ensures var a := AveragesOf(Run(Start, es));
            0.0 <= a.cpu <= 100.0 && 0.0 <= a.ram <= 100.0 && 0.0 <= a.gpu <= 100.0
    decreases |es|
  {
    if |es| > 0 {
      var init := es[..|es| - 1];
      assert forall i :: 0 <= i < |init| ==> init[i] == es[i];
      AveragesArePercentages(init);
      TickKeepsPercentages(Run(Start, init), es[|es| - 1]);
    }
    var st := Run(Start, es);
    AverageOfPercentages(st.cpu);
    AverageOfPercentages(st.ram);
    AverageOfPercentages(st.gpu);
  }

  /** A tick that read only a CPU load. */
  function CpuOnly(x: real): TickEvent
  {
    Completed(Sample(Some(x), None, None))
  }

  /** Three ticks reading 10, 20 and 30 % CPU average 20 %, and the first one latches `gotData`. */
  lemma ThreeTicksExample()
    ensures var st := Run(Start, [CpuOnly(10.0), CpuOnly(20.0), CpuOnly(30.0)]);
            st.cpu == [10.0, 20.0, 30.0] && st.ram == [0.0, 0.0, 0.0] &&
            AveragesOf(st).cpu == 20.0 && st.gotData && st.status == Receiving
  {
    var es := [CpuOnly(10.0), CpuOnly(20.0), CpuOnly(30.0)];
    assert es[..2] == [CpuOnly(10.0), CpuOnly(20.0)];
    assert es[..2][..1] == [CpuOnly(10.0)];
    assert [CpuOnly(10.0)][..0] == [];
    var st1 := Run(Start, [CpuOnly(10.0)]);
    assert st1 == Tick(Start, CpuOnly(10.0));
    PushWhileFilling([], 10.0, Capacity);
    PushWhileFilling([], 0.0, Capacity);
    assert st1.cpu == [10.0] && st1.ram == [0.0] && st1.gpu == [0.0] && st1.gotData && st1.status == Receiving;
    var st2 := Run(Start, es[..2]);
    assert st2 == Tick(st1, CpuOnly(20.0));
    PushWhileFilling([10.0], 20.0, Capacity);
    PushWhileFilling([0.0], 0.0, Capacity);
    assert st2.cpu == [10.0, 20.0] && st2.ram == [0.0, 0.0] && st2.gotData && st2.status == Receiving;
    var st3 := Run(Start, es);
    assert st3 == Tick(st2, CpuOnly(30.0));
    PushWhileFilling([10.0, 20.0], 30.0, Capacity);
    PushWhileFilling([0.0, 0.0], 0.0, Capacity);
    AverageExample();
  }
}
