/**
 * karx/monitor/guardian_angel.py: samples CPU and memory load, keeps a
 * rolling history that every check cuts to the newest 100 snapshots (one
 * loaded from disk may be longer until then), saves it whenever its new
 * length is a multiple of 10 (so on every check once the history is full),
 * and reports a breach when a sample is over a configured limit. The sampling
 * itself (psutil) and the clock are inputs of the model.
 */
module Monitor {
  import opened Wrappers
  import opened Storage

  /** The history keeps at most this many snapshots. */
  const Capacity: nat := 100
  /** The history is saved whenever its length is a multiple of this. */
  const SaveEvery: nat := 10

  const DefaultMaxCpuPercent: real := 90.0
  const DefaultMaxMemoryPercent: real := 85.0
  const DefaultCheckInterval: real := 1.0

  datatype Snapshot = Snapshot(cpuPercent: real, memoryPercent: real, timestamp: real)

  /**
   * What psutil reports for one check: both readings, or an exception.
   * `cpu_percent` also raises on a negative interval whatever this says.
   */
  datatype Sample = Sampled(cpu: real, memory: real) | SamplingFailed

  /** One message of `_check_thresholds`: the resource and its measured value. */
  datatype Breach = CpuTooHigh(cpuPercent: real) | MemoryTooHigh(memoryPercent: real)

  /** What the handler of `check_resources` logs before returning the zero status. */
  datatype CheckError = SamplingError | ThresholdExceeded(breaches: seq<Breach>)

  /** The history file `{snapshots, last_updated}`. */
  datatype HistoryDoc = HistoryDoc(snapshots: seq<Snapshot>, lastUpdated: string)

  /** `get_average_usage` and `get_peak_usage` raise (ZeroDivisionError, ValueError) on an empty window. */
  datatype UsageError = EmptyWindow

  /** The all-zero status returned when nothing can be reported. */
  function Idle(now: real): Snapshot
  {
    Snapshot(0.0, 0.0, now)
  }

  function Min(a: int, b: int): int { if a <= b then a else b }

  /** Python's `xs[-n:]`. */
  function TailSlice<T>(xs: seq<T>, n: int): (r: seq<T>)
    ensures |r| <= |xs| && r == xs[|xs| - |r|..]
    ensures n > 0 ==> |r| == Min(n, |xs|)
    ensures n == 0 ==> r == xs
    ensures n < 0 ==> |r| == |xs| - Min(-n, |xs|)
  {
    var start := if n > 0 then (if n >= |xs| then 0 else |xs| - n)
                 else if -n >= |xs| then |xs| else -n;
    xs[start..]
  }

  /** The history after appending `s` to `h` and evicting down to `Capacity`: never over capacity, `s` last. */
  function Record(h: seq<Snapshot>, s: Snapshot): (r: seq<Snapshot>)
    ensures 1 <= |r| <= Capacity && r[|r| - 1] == s
  {
    var h' := h + [s];
    if |h'| > Capacity then TailSlice(h', Capacity) else h'
  }

  /**
   * Appending gives `min(|h| + 1, 100)` snapshots, whatever the starting
   * length: the newest ones of `h + [s]` in their order, `s` last.
   */
  lemma RecordKeepsNewest(h: seq<Snapshot>, s: Snapshot)
    ensures |Record(h, s)| == Min(|h| + 1, Capacity)
    ensures Record(h, s) == (h + [s])[|h| + 1 - |Record(h, s)|..]
    ensures Record(h, s)[|Record(h, s)| - 1] == s
    ensures Record(h, s) == TailSlice(h + [s], Capacity)
  {
  }

  /** Once the history is full, or about to be, every check saves it. */
  lemma FullHistorySavesEveryTime(h: seq<Snapshot>, s: Snapshot)
    requires |h| >= Capacity - 1
    ensures |Record(h, s)| == Capacity && |Record(h, s)| % SaveEvery == 0
  {
  }

  /** The history after appending each of `ss` in turn. */
  function RecordAll(h: seq<Snapshot>, ss: seq<Snapshot>): seq<Snapshot>
    decreases |ss|
  {
    if ss == [] then h else RecordAll(Record(h, ss[0]), ss[1..])
  }

  lemma TailOfTail<T>(x: seq<T>, y: seq<T>, n: nat)
    requires n > 0
    ensures TailSlice(TailSlice(x, n) + y, n) == TailSlice(x + y, n)
  {
    var t := TailSlice(x, n);
    var a := TailSlice(t + y, n);
    var b := TailSlice(x + y, n);
    assert |a| == |b|;
    assert t + y == (x + y)[|x| - |t|..];
    forall i | 0 <= i < |a| ensures a[i] == b[i] {
      assert a[i] == (t + y)[|t + y| - |a| + i];
      assert b[i] == (x + y)[|x + y| - |b| + i];
    }
  }

  lemma AppendFirst<T>(h: seq<T>, ss: seq<T>)
    requires ss != []
    ensures h + [ss[0]] + ss[1..] == h + ss
  {
    assert ss == [ss[0]] + ss[1..];
  }

  /** After any non-empty run of checks, the history is the newest 100 samples of everything seen, in order. */
  lemma {:induction false} RecordAllKeepsNewest(h: seq<Snapshot>, ss: seq<Snapshot>)
    requires ss != []
    ensures RecordAll(h, ss) == TailSlice(h + ss, Capacity)
    decreases |ss|
  {
    var h1 := Record(h, ss[0]);
    assert h1 == TailSlice(h + [ss[0]], Capacity) by {
      RecordKeepsNewest(h, ss[0]);
    }
    AppendFirst(h, ss);
    if |ss| == 1 {
      calc {
        RecordAll(h, ss);
        RecordAll(h1, ss[1..]);
        { assert ss[1..] == []; }
        h1;
        { assert h + [ss[0]] == h + [ss[0]] + ss[1..]; }
        TailSlice(h + ss, Capacity);
      }
    } else {
      calc {
        RecordAll(h, ss);
        RecordAll(h1, ss[1..]);
        { RecordAllKeepsNewest(h1, ss[1..]); }
        TailSlice(h1 + ss[1..], Capacity);
        { TailOfTail(h + [ss[0]], ss[1..], Capacity); }
        TailSlice(h + [ss[0]] + ss[1..], Capacity);
        TailSlice(h + ss, Capacity);
      }
    }
  }

  /** `sum(xs)`: never negative for non-negative readings. */
  function Total(xs: seq<real>): (t: real)
    ensures (forall i :: 0 <= i < |xs| ==> 0.0 <= xs[i]) ==> 0.0 <= t
  {
    if xs == [] then 0.0 else Total(xs[..|xs| - 1]) + xs[|xs| - 1]
  }

  /** Python's `max`: an element of `xs` no smaller than any other. */
  function Peak(xs: seq<real>): (m: real)
    requires xs != []
    ensures forall i :: 0 <= i < |xs| ==> xs[i] <= m
    ensures exists i :: 0 <= i < |xs| && xs[i] == m
  {
    if |xs| == 1 then xs[0]
    else
      var p := Peak(xs[..|xs| - 1]);
      var last := xs[|xs| - 1];
      assert forall i :: 0 <= i < |xs| - 1 ==> xs[i] == xs[..|xs| - 1][i];
      if last > p then last else p
  }

  lemma DivTimes(a: real, n: real)
    requires n > 0.0
    ensures (a / n) * n == a
  {
  }

  lemma DivAtMost(a: real, b: real, n: real)
    requires n > 0.0 && a <= n * b
    ensures a / n <= b
  {
    DivTimes(a, n);
  }

  /** `v` is the average of `xs`: `v` times the count is the sum. */
  predicate IsMeanOf(v: real, xs: seq<real>)
  {
    xs != [] && v * |xs| as real == Total(xs)
  }

  function Mean(xs: seq<real>): (m: real)
    requires xs != []
    ensures IsMeanOf(m, xs)
  {
    DivTimes(Total(xs), |xs| as real);
    Total(xs) / |xs| as real
  }

  lemma AddBound(t: real, x: real, k: real, b: real)
    requires t <= k * b && x <= b
    ensures t + x <= (k + 1.0) * b
  {
  }

  lemma {:induction false} TotalAtMostPeak(xs: seq<real>, bound: real)
    requires forall i :: 0 <= i < |xs| ==> xs[i] <= bound
    ensures Total(xs) <= |xs| as real * bound
  {
    if xs != [] {
      var init := xs[..|xs| - 1];
      assert forall i :: 0 <= i < |init| ==> init[i] == xs[i];
      TotalAtMostPeak(init, bound);
      AddBound(Total(init), xs[|xs| - 1], |init| as real, bound);
    }
  }

  /** The average of a window never exceeds its peak. */
  lemma MeanAtMostPeak(xs: seq<real>)
    requires xs != []
    ensures Mean(xs) <= Peak(xs)
  {
    TotalAtMostPeak(xs, Peak(xs));
    DivAtMost(Total(xs), Peak(xs), |xs| as real);
  }

  function CpuOf(w: seq<Snapshot>): (r: seq<real>)
    ensures |r| == |w| && forall i :: 0 <= i < |w| ==> r[i] == w[i].cpuPercent
  {
    seq(|w|, i requires 0 <= i < |w| => w[i].cpuPercent)
  }

  function MemoryOf(w: seq<Snapshot>): (r: seq<real>)
    ensures |r| == |w| && forall i :: 0 <= i < |w| ==> r[i] == w[i].memoryPercent
  {
    seq(|w|, i requires 0 <= i < |w| => w[i].memoryPercent)
  }

  /** `p` holds, stamped `now`, a CPU reading and a memory reading of `w` that no snapshot of `w` exceeds. */
  predicate IsPeakOf(p: Snapshot, w: seq<Snapshot>, now: real)
  {
    && p.timestamp == now
    && (forall i :: 0 <= i < |w| ==> w[i].cpuPercent <= p.cpuPercent && w[i].memoryPercent <= p.memoryPercent)
    && (exists i :: 0 <= i < |w| && w[i].cpuPercent == p.cpuPercent)
    && (exists i :: 0 <= i < |w| && w[i].memoryPercent == p.memoryPercent)
  }

  /** The snapshot of the largest CPU and memory readings of `w`, read independently. */
  function PeakSnapshot(w: seq<Snapshot>, now: real): (p: Snapshot)
    requires w != []
    ensures IsPeakOf(p, w, now)
  {
    var cpu, mem := CpuOf(w), MemoryOf(w);
    var c, m := Peak(cpu), Peak(mem);
    var j :| 0 <= j < |cpu| && cpu[j] == c;
    var k :| 0 <= k < |mem| && mem[k] == m;
    assert w[j].cpuPercent == c && w[k].memoryPercent == m;
    Snapshot(c, m, now)
  }

  /** `_load_history`: the stored snapshots, or none when the file is missing or cannot be decoded. */
  function LoadHistory(file: Option<Content<HistoryDoc>>): (h: seq<Snapshot>)
    ensures Decoded(file).Some? ==> h == Decoded(file).value.snapshots
    ensures Decoded(file).None? ==> h == []
  {
    match file
    case Some(Doc(d)) => d.snapshots
    case _ => []
  }

  /**
   * A completed save is what the next start loads; a torn one makes the
   * next start begin with an empty history; a refused one leaves the
   * previous file in place.
   */
  lemma SavedHistoryReloads(file: Option<Content<HistoryDoc>>, h: seq<Snapshot>, t: string)
    ensures LoadHistory(Write(file, Doc(HistoryDoc(h, t)), Written)) == h
    ensures LoadHistory(Write(file, Doc(HistoryDoc(h, t)), Torn)) == []
    ensures LoadHistory(Write(file, Doc(HistoryDoc(h, t)), Refused)) == LoadHistory(file)
  {
  }

  class GuardianAngel {
    const maxCpuPercent: real
    const maxMemoryPercent: real
    const checkInterval: real
    /** `self.snapshots`, the in-memory history. */
    var snapshots: seq<Snapshot>
    /** The history file on disk. */
    var historyFile: Option<Content<HistoryDoc>>

    /** `__init__` with its default limits: 90% CPU, 85% memory, a one-second interval. */
    constructor Default(file: Option<Content<HistoryDoc>>)
      ensures maxCpuPercent == DefaultMaxCpuPercent && maxMemoryPercent == DefaultMaxMemoryPercent
      ensures checkInterval == DefaultCheckInterval
      ensures historyFile == file && snapshots == LoadHistory(file)
    {
      maxCpuPercent, maxMemoryPercent, checkInterval := DefaultMaxCpuPercent, DefaultMaxMemoryPercent, DefaultCheckInterval;
      historyFile := file;
      snapshots := LoadHistory(file);
    }

    /** `__init__`: the limits are configuration; the history starts as whatever the file holds. */
    constructor(maxCpu: real, maxMemory: real, interval: real, file: Option<Content<HistoryDoc>>)
      ensures maxCpuPercent == maxCpu && maxMemoryPercent == maxMemory && checkInterval == interval
      ensures historyFile == file && snapshots == LoadHistory(file)
    {
      maxCpuPercent, maxMemoryPercent, checkInterval := maxCpu, maxMemory, interval;
      historyFile := file;
      snapshots := LoadHistory(file);
    }

    /** The interval handed to `psutil.cpu_percent`: the configured one, capped at one second. */
    function SamplingInterval(): (r: real)
      ensures r <= 1.0 && r <= checkInterval
      ensures r == checkInterval || r == 1.0
    {
      if checkInterval <= 1.0 then checkInterval else 1.0
    }

    /** The breaches of a status: one per resource strictly over its limit, CPU first. */
    function Breaches(status: Snapshot): (r: seq<Breach>)
      ensures CpuTooHigh(status.cpuPercent) in r <==> status.cpuPercent > maxCpuPercent
      ensures MemoryTooHigh(status.memoryPercent) in r <==> status.memoryPercent > maxMemoryPercent
      ensures forall b :: b in r ==> b == CpuTooHigh(status.cpuPercent) || b == MemoryTooHigh(status.memoryPercent)
      ensures |r| <= 2 && (|r| == 2 ==> r[0].CpuTooHigh? && r[1].MemoryTooHigh?)
      ensures r == [] <==> status.cpuPercent <= maxCpuPercent && status.memoryPercent <= maxMemoryPercent
    {
      (if status.cpuPercent > maxCpuPercent then [CpuTooHigh(status.cpuPercent)] else [])
      + (if status.memoryPercent > maxMemoryPercent then [MemoryTooHigh(status.memoryPercent)] else [])
    }

    /** `_check_thresholds`: builds the message list; a non-empty list is what it raises. */
    method CheckThresholds(status: Snapshot) returns (messages: seq<Breach>)
      ensures messages == Breaches(status)
    {
      messages := [];
      if status.cpuPercent > maxCpuPercent {
        messages := messages + [CpuTooHigh(status.cpuPercent)];
      }
      if status.memoryPercent > maxMemoryPercent {
        messages := messages + [MemoryTooHigh(status.memoryPercent)];
      }
    }

    /** `_save_history`: writes the last 100 snapshots and a timestamp; failures are swallowed. */
    method SaveHistory(nowText: string, write: WriteOutcome)
      modifies this`historyFile
      ensures historyFile == Write(old(historyFile), Doc(HistoryDoc(TailSlice(snapshots, Capacity), nowText)), write)
    {
      historyFile := Write(historyFile, Doc(HistoryDoc(TailSlice(snapshots, Capacity), nowText)), write);
    }

    /**
     * `check_resources`. The threshold error raised after the sample is
     * recorded is caught by the method's own handler, so a breach returns
     * the zero status and leaves the breaching sample in the history.
     * A negative interval makes `psutil.cpu_percent` raise before anything
     * is recorded, so it fails like a failed sample.
     */
    method CheckResources(sample: Sample, now: real, nowText: string, write: WriteOutcome)
      returns (status: Snapshot, logged: Option<CheckError>)
      modifies this`snapshots, this`historyFile
      ensures sample.SamplingFailed? || SamplingInterval() < 0.0 ==>
                && status == Idle(now) && logged == Some(SamplingError)
                && snapshots == old(snapshots) && historyFile == old(historyFile)
      ensures sample.Sampled? && SamplingInterval() >= 0.0 ==>
                var s := Snapshot(sample.cpu, sample.memory, now);
                && snapshots == Record(old(snapshots), s)
                && historyFile == (if |snapshots| % SaveEvery == 0
                                   then Write(old(historyFile), Doc(HistoryDoc(snapshots, nowText)), write)
                                   else old(historyFile))
                && (Breaches(s) == [] ==> status == s && logged == None)
                && (Breaches(s) != [] ==> status == Idle(now) && logged == Some(ThresholdExceeded(Breaches(s))))
    {
      if sample.SamplingFailed? || SamplingInterval() < 0.0 {
        return Idle(now), Some(SamplingError);
      }
      status := Snapshot(sample.cpu, sample.memory, now);
      snapshots := snapshots + [status];
      if |snapshots| > Capacity {
        snapshots := TailSlice(snapshots, Capacity);
      }
      if |snapshots| % SaveEvery == 0 {
        SaveHistory(nowText, write);
      }
      var messages := CheckThresholds(status);
      if messages != [] {
        return Idle(now), Some(ThresholdExceeded(messages));
      }
      logged := None;
    }

    /** The snapshots `get_average_usage(last_n)` and `get_peak_usage(last_n)` look at: `snapshots[-last_n:]`. */
    function Window(lastN: Option<int>): (w: seq<Snapshot>)
      reads this
      ensures |w| <= |snapshots| && w == snapshots[|snapshots| - |w|..]
      ensures lastN.None? || lastN == Some(0) || (lastN.Some? && lastN.value >= |snapshots|) ==> w == snapshots
      ensures lastN.Some? && 0 < lastN.value <= |snapshots| ==> |w| == lastN.value
    {
      TailSlice(snapshots, if lastN.Some? then lastN.value else |snapshots|)
    }

    /** `get_average_usage`: the mean CPU and memory over the window, all zero on an empty history. */
    function AverageUsage(lastN: Option<int>, now: real): (r: Result<Snapshot, UsageError>)
      reads this
      ensures snapshots == [] ==> r == Ok(Idle(now))
      ensures snapshots != [] && Window(lastN) == [] ==> r == Err(EmptyWindow)
      ensures snapshots != [] && Window(lastN) != [] ==>
                && r.Ok? && r.value.timestamp == now
                && IsMeanOf(r.value.cpuPercent, CpuOf(Window(lastN)))
                && IsMeanOf(r.value.memoryPercent, MemoryOf(Window(lastN)))
    {
      if snapshots == [] then Ok(Idle(now))
      else
        var w := Window(lastN);
        if w == [] then Err(EmptyWindow)
        else Ok(Snapshot(Mean(CpuOf(w)), Mean(MemoryOf(w)), now))
    }

    /** `get_peak_usage`: the largest CPU and memory readings in the window, all zero on an empty history. */
    function PeakUsage(lastN: Option<int>, now: real): (r: Result<Snapshot, UsageError>)
      reads this
      ensures snapshots == [] ==> r == Ok(Idle(now))
      ensures snapshots != [] && Window(lastN) == [] ==> r == Err(EmptyWindow)
      ensures snapshots != [] && Window(lastN) != [] ==> r.Ok? && IsPeakOf(r.value, Window(lastN), now)
    {
      if snapshots == [] then Ok(Idle(now))
      else
        var w := Window(lastN);
        if w == [] then Err(EmptyWindow)
        else Ok(PeakSnapshot(w, now))
    }

    /** Over the same window, the average never exceeds the peak. */
    lemma AverageAtMostPeak(lastN: Option<int>, now: real)
      requires AverageUsage(lastN, now).Ok?
      ensures PeakUsage(lastN, now).Ok?
      ensures AverageUsage(lastN, now).value.cpuPercent <= PeakUsage(lastN, now).value.cpuPercent
      ensures AverageUsage(lastN, now).value.memoryPercent <= PeakUsage(lastN, now).value.memoryPercent
    {
      if snapshots != [] {
        var w := Window(lastN);
        MeanAtMostPeak(CpuOf(w));
        MeanAtMostPeak(MemoryOf(w));
      }
    }
  }
}
