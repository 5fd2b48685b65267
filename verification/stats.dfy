/**
 Per-device error counters as `btrfs device stats` reports them, and the
 sums both scripts compute from them.
 */
module Stats {

  /** One entry of the `device-stats` array: a device and its five error counters. */
  datatype DeviceStats = DeviceStats(
    device: string,
    writeIoErrs: int,
    readIoErrs: int,
    flushIoErrs: int,
    corruptionErrs: int,
    generationErrs: int)

  /** Sum of the five counters of one device. */
  function DeviceErrors(d: DeviceStats): int
  {
    d.writeIoErrs + d.readIoErrs + d.flushIoErrs + d.corruptionErrs + d.generationErrs
  }

  /** Counters as the kernel keeps them: never negative. */
  predicate NonNegative(d: DeviceStats)
  {
    d.writeIoErrs >= 0 && d.readIoErrs >= 0 && d.flushIoErrs >= 0
    && d.corruptionErrs >= 0 && d.generationErrs >= 0
  }

  predicate Clean(d: DeviceStats)
  {
    d.writeIoErrs == 0 && d.readIoErrs == 0 && d.flushIoErrs == 0
    && d.corruptionErrs == 0 && d.generationErrs == 0
  }

  /** Reference definition: the total error count of a mountpoint, over all its devices. */
  function TotalErrors(devices: seq<DeviceStats>): int
  {
    if |devices| == 0 then 0 else TotalErrors(devices[..|devices| - 1]) + DeviceErrors(devices[|devices| - 1])
  }

  /** The total splits over any partition of the device list. */
  lemma {:induction false} TotalErrorsAppend(a: seq<DeviceStats>, b: seq<DeviceStats>)
    ensures TotalErrors(a + b) == TotalErrors(a) + TotalErrors(b)
    decreases |b|
  {
    if |b| == 0 {
      assert a + b == a;
    } else {
      assert (a + b)[..|a + b| - 1] == a + b[..|b| - 1];
      TotalErrorsAppend(a, b[..|b| - 1]);
    }
  }

  /**
   With non-negative counters, a mountpoint's total is zero exactly when
   every counter of every device is zero, and it bounds each device's own sum.
   */
  lemma {:induction false} TotalErrorsZeroIffClean(devices: seq<DeviceStats>)
    requires forall i :: 0 <= i < |devices| ==> NonNegative(devices[i])
    ensures TotalErrors(devices) >= 0
    ensures TotalErrors(devices) == 0 <==> forall i :: 0 <= i < |devices| ==> Clean(devices[i])
    ensures forall i :: 0 <= i < |devices| ==> DeviceErrors(devices[i]) <= TotalErrors(devices)
    decreases |devices|
  {
    if |devices| > 0 {
      var init := devices[..|devices| - 1];
      TotalErrorsZeroIffClean(init);
      assert forall i :: 0 <= i < |init| ==> init[i] == devices[i];
    }
  }

  /**
   The accumulation loop of the stats pass in btrfs-monitor.py: starting
   from zero, add each device's five counters in turn.
   */
  method SumErrorCounters(devices: seq<DeviceStats>) returns (errCnt: int)
    ensures errCnt == TotalErrors(devices)
  {
    errCnt := 0;
    var i := 0;
    while i < |devices|
      invariant 0 <= i <= |devices|
      invariant errCnt == TotalErrors(devices[..i])
    {
      assert devices[..i + 1][..i] == devices[..i];
      errCnt := errCnt + DeviceErrors(devices[i]);
      i := i + 1;
    }
    assert devices[..i] == devices;
  }
}
