/**
 * `main`: runs the three readers in a fixed order and collects what each
 * would print.  Every OS result the run depends on is part of Environment.
 * Besides the readings, the run returns the sequence of reader operations
 * it performs, including the handle releases done by the destructors at the
 * end of `main` (the driver's first, then the WMI reader's).
 */
module Orchestrator {
  import opened Wrappers
  import opened Win32
  import opened AcpiTable
  import opened Wmi
  import opened Driver

  /** The driver is probed for zone indices 0 to PROBE_COUNT - 1. */
  const PROBE_COUNT: nat := 10

  /** A driver reading that `main` prints: the zone index and its temperature. */
  datatype ZoneReading = ZoneReading(zone: int, temperature: real)

  /** The reader operations `main` performs, in the order it performs them. */
  datatype Step =
    | WmiInitialize
    | WmiReadTemperatures
    | AcpiReadThermalZones
    | DriverInitialize
    | DriverIoControl(request: IoRequest)
    | DriverCloseHandle
    | WmiCleanup(calls: seq<ComTeardown>)

  /** Everything the OS answers during one run. */
  datatype Environment = Environment(
    com: ComResults,                               // the calls in WMITemperatureReader::initialize
    execQuery: HResult,                            // ExecQuery
    wmiObjects: seq<Option<WmiObject>>,            // successive Next calls
    thermalZoneKey: Option<seq<SubkeyEntry>>,      // the registry root key and its subkeys
    driverHandle: Handle,                          // CreateFileA
    driverReplies: seq<Option<real>>)              // what the driver writes, per zone index

  /** What `main` prints, per reader, and the operations it performed. */
  datatype Report = Report(
    wmi: seq<real>,
    zones: seq<ThermalZone>,
    driver: seq<ZoneReading>,
    steps: seq<Step>)

  /** The driver's reply for zone `i`; an index with no recorded reply leaves the buffer untouched. */
  function ReplyFor(replies: seq<Option<real>>, i: int): Option<real> {
    if 0 <= i < |replies| then replies[i] else None
  }

  /** `main` prints a driver reading only when it is above 0. */
  predicate Reported(reply: Option<real>) {
    reply.Some? && reply.value > 0.0
  }

  /** The driver readings printed after probing zones 0 to n - 1 on a valid handle. */
  function ProbeReport(replies: seq<Option<real>>, n: nat): (report: seq<ZoneReading>)
    ensures |report| <= n
    ensures forall k :: 0 <= k < |report| ==>
              && 0 <= report[k].zone < n
              && report[k].temperature > 0.0
              && ReplyFor(replies, report[k].zone) == Some(report[k].temperature)
  {
    if n == 0 then []
    else
      var reply := ReplyFor(replies, n - 1);
      ProbeReport(replies, n - 1)
        + (if Reported(reply) then [ZoneReading(n - 1, reply.value)] else [])
  }

  /** The temperature request for zone `k` on the device handle `id`. */
  function ProbeRequest(id: nat, k: nat): IoRequest
    requires k < INT32_LIMIT
  {
    IoRequest(id, THERMAL_IOCTL, k as int32)
  }

  /** The requests the probe loop issues for zones 0 to n - 1, in order. */
  function ProbeRequests(id: nat, n: nat): (requests: seq<IoRequest>)
    requires n <= INT32_LIMIT
    ensures |requests| == n
    ensures forall k :: 0 <= k < n ==> requests[k] == ProbeRequest(id, k)
  {
    if n == 0 then [] else ProbeRequests(id, n - 1) + [ProbeRequest(id, n - 1)]
  }

  /** The probe loop's steps: one control request per zone 0 to n - 1, in order. */
  function ProbeSteps(id: nat, n: nat): (steps: seq<Step>)
    requires n <= INT32_LIMIT
    ensures |steps| == n
  {
    if n == 0 then [] else ProbeSteps(id, n - 1) + [DriverIoControl(ProbeRequest(id, n - 1))]
  }

  /** After a fresh reader's `initialize`: is `pLoc` set? */
  predicate HasLocatorAfter(com: ComResults) {
    Succeeded(com.coInitializeEx) && Succeeded(com.coCreateInstance)
  }

  /** The steps before the driver is opened: WMI, then the registry. */
  function FrontSteps(com: ComResults): seq<Step> {
    [WmiInitialize]
      + (if InitializeSucceeds(com) then [WmiReadTemperatures] else [])
      + [AcpiReadThermalZones]
      + [DriverInitialize]
  }

  /** The probe requests and the destructor's close, both only on a valid handle. */
  function DriverPhase(handle: Handle, probes: nat): seq<Step>
    requires probes <= INT32_LIMIT
  {
    if handle.DeviceHandle? then ProbeSteps(handle.id, probes) + [DriverCloseHandle] else []
  }

  /** The WMI reader's destructor, after a fresh reader's `initialize`. */
  function CleanupStep(com: ComResults): Step {
    WmiCleanup(TeardownCalls(InitializeSucceeds(com), HasLocatorAfter(com)))
  }

  /**
   * The operations of a run, given the COM results, the handle `CreateFileA`
   * returned, and how many zone indices are probed.
   */
  ghost function ExpectedSteps(com: ComResults, handle: Handle, probes: nat): seq<Step>
    requires probes <= INT32_LIMIT
  {
    FrontSteps(com) + DriverPhase(handle, probes) + [CleanupStep(com)]
  }

  /**
   * The loop of `main` over zone indices 0 to 9 on an open driver: each
   * index is sent to the driver and a temperature above 0 is reported.
   */
  method ProbeZones(driver: DriverInterface, replies: seq<Option<real>>)
    returns (readings: seq<ZoneReading>, steps: seq<Step>)
    requires driver.handle.DeviceHandle?
    modifies driver`issued
    ensures readings == ProbeReport(replies, PROBE_COUNT)
    ensures steps == ProbeSteps(driver.handle.id, PROBE_COUNT)
    ensures driver.issued == old(driver.issued) + ProbeRequests(driver.handle.id, PROBE_COUNT)
  {
    readings, steps := [], [];
    for i := 0 to PROBE_COUNT
      invariant driver.issued == old(driver.issued) + ProbeRequests(driver.handle.id, i)
      invariant readings == ProbeReport(replies, i)
      invariant steps == ProbeSteps(driver.handle.id, i)
    {
      var temp, request := driver.ReadThermalZoneTemperature(i as int32, ReplyFor(replies, i));
      if request.Some? {
        steps := steps + [DriverIoControl(request.value)];
      }
      if temp > 0.0 {
        readings := readings + [ZoneReading(i, temp)];
      }
    }
  }

  /**
   * `main`.  Besides the report, `issued` is every `DeviceIoControl` request
   * made through the driver object during the run.
   */
  method Run(env: Environment) returns (report: Report, ghost issued: seq<IoRequest>)
    ensures report.wmi ==
              if InitializeSucceeds(env.com) && Succeeded(env.execQuery)
              then WmiReadings(env.wmiObjects) else []
    ensures report.zones ==
              if env.thermalZoneKey.Some? then ZonesOf(env.thermalZoneKey.value) else []
    ensures report.driver ==
              if env.driverHandle != InvalidHandle
              then ProbeReport(env.driverReplies, PROBE_COUNT) else []
    ensures report.steps == ExpectedSteps(env.com, env.driverHandle, PROBE_COUNT)
    ensures issued ==
              if env.driverHandle.DeviceHandle?
              then ProbeRequests(env.driverHandle.id, PROBE_COUNT) else []
  {
    // Method 1: WMI.
    var steps := [WmiInitialize];
    var wmiReader := new WmiReader();
    var wmiOk := wmiReader.Initialize(env.com);
    assert wmiReader.hasServices == InitializeSucceeds(env.com);
    assert wmiReader.hasLocator == HasLocatorAfter(env.com);
    var wmiReadings := [];
    if wmiOk {
      steps := steps + [WmiReadTemperatures];
      wmiReadings := wmiReader.ReadTemperatures(env.execQuery, env.wmiObjects);
    }

    // Method 2: the registry's ACPI thermal zones.
    steps := steps + [AcpiReadThermalZones];
    var zones := ReadThermalZones(env.thermalZoneKey);

    // Method 3: the driver interface.
    steps := steps + [DriverInitialize];
    var driver := new DriverInterface();
    var driverOk := driver.Initialize(env.driverHandle);
    var driverReadings := [];
    ghost var before := steps;
    if driverOk {
      var probeSteps;
      driverReadings, probeSteps := ProbeZones(driver, env.driverReplies);
      steps := steps + probeSteps;
    }

    // End of scope: the destructors run in reverse order of construction.
    var closed := driver.Dispose();
    if closed.Some? {
      steps := steps + [DriverCloseHandle];
    }
    assert steps == before + DriverPhase(env.driverHandle, PROBE_COUNT);
    var calls := wmiReader.Cleanup();
    steps := steps + [WmiCleanup(calls)];
    assert before == FrontSteps(env.com);

    report := Report(wmiReadings, zones, driverReadings, steps);
    issued := driver.issued;
  }

  /**
   * The probe loop issues a request exactly for the temperature control
   * code on the device handle and a zone index below the probe count.
   */
  lemma {:induction false} ProbeStepsRequests(id: nat, n: nat, r: IoRequest)
    requires n <= INT32_LIMIT
    ensures DriverIoControl(r) in ProbeSteps(id, n) <==>
              r.handle == id && r.controlCode == THERMAL_IOCTL && 0 <= r.zoneIndex as int < n
  {
    if n > 0 {
      ProbeStepsRequests(id, n - 1, r);
    }
  }

  /** The k-th probe step is the k-th request the driver object records. */
  lemma {:induction false} ProbeStepsAreRequests(id: nat, n: nat)
    requires n <= INT32_LIMIT
    ensures forall k :: 0 <= k < n ==> ProbeSteps(id, n)[k] == DriverIoControl(ProbeRequests(id, n)[k])
  {
    if n > 0 {
      ProbeStepsAreRequests(id, n - 1);
    }
  }

  /** The probe loop issues control requests and nothing else. */
  lemma {:induction false} ProbeStepsOnlyRequests(id: nat, n: nat)
    requires n <= INT32_LIMIT
    ensures forall step :: step in ProbeSteps(id, n) ==> step.DriverIoControl?
  {
    if n > 0 {
      ProbeStepsOnlyRequests(id, n - 1);
    }
  }

  /**
   * The registry reader runs whatever the outcome of the others; WMI is read
   * exactly when its `initialize` succeeded, and a control request is sent
   * exactly for the probed zones of a valid handle.
   */
  lemma {:induction false} StepsByOutcome(com: ComResults, handle: Handle, probes: nat, r: IoRequest)
    requires probes <= INT32_LIMIT
    ensures AcpiReadThermalZones in ExpectedSteps(com, handle, probes)
    ensures WmiReadTemperatures in ExpectedSteps(com, handle, probes) <==> InitializeSucceeds(com)
    ensures DriverIoControl(r) in ExpectedSteps(com, handle, probes) <==>
              && handle.DeviceHandle?
              && r.handle == handle.id && r.controlCode == THERMAL_IOCTL
              && 0 <= r.zoneIndex as int < probes
  {
    if handle.DeviceHandle? {
      ProbeStepsRequests(handle.id, probes, r);
      ProbeStepsOnlyRequests(handle.id, probes);
    }
  }

  /** The device handle is closed exactly once if it is valid, and never otherwise. */
  lemma {:induction false} DriverClosedOnce(com: ComResults, handle: Handle, probes: nat)
    requires probes <= INT32_LIMIT
    ensures multiset(ExpectedSteps(com, handle, probes))[DriverCloseHandle] == if handle.DeviceHandle? then 1 else 0
  {
    if handle.DeviceHandle? {
      ProbeStepsOnlyRequests(handle.id, probes);
      assert DriverCloseHandle !in ProbeSteps(handle.id, probes);
    }
    assert multiset(DriverPhase(handle, probes))[DriverCloseHandle] == if handle.DeviceHandle? then 1 else 0;
    assert DriverCloseHandle !in FrontSteps(com);
  }

  /**
   * The WMI reader is cleaned up once, as the last step of the run, with the
   * teardown calls of the pointers it obtained (see TeardownReleasesOnce).
   */
  lemma {:induction false} WmiCleanedUpOnceAtEnd(com: ComResults, handle: Handle, probes: nat)
    requires probes <= INT32_LIMIT
    ensures var steps := ExpectedSteps(com, handle, probes);
            && steps[|steps| - 1] == WmiCleanup(TeardownCalls(InitializeSucceeds(com), HasLocatorAfter(com)))
            && forall j :: 0 <= j < |steps| - 1 ==> !steps[j].WmiCleanup?
  {
    if handle.DeviceHandle? {
      ProbeStepsOnlyRequests(handle.id, probes);
    }
    var front, driverPart := FrontSteps(com), DriverPhase(handle, probes);
    var steps := ExpectedSteps(com, handle, probes);
    forall j | 0 <= j < |steps| - 1
      ensures !steps[j].WmiCleanup?
    {
      if |front| <= j {
        var k := j - |front|;
        assert steps[j] == driverPart[k];
        if k < |driverPart| - 1 {
          assert driverPart[k] in ProbeSteps(handle.id, probes);
        }
      }
    }
  }

  /**
   * The phases come in a fixed order: before position `p`, where the
   * registry is read, only WMI operations; after it only driver operations,
   * up to the WMI cleanup that ends the run.
   */
  lemma {:induction false} StepsInOrder(com: ComResults, handle: Handle, probes: nat) returns (p: nat)
    requires probes <= INT32_LIMIT
    ensures p < |ExpectedSteps(com, handle, probes)|
    ensures ExpectedSteps(com, handle, probes)[p] == AcpiReadThermalZones
    ensures forall j :: 0 <= j < p ==>
              ExpectedSteps(com, handle, probes)[j] in {WmiInitialize, WmiReadTemperatures}
    ensures forall j :: p < j < |ExpectedSteps(com, handle, probes)| - 1 ==>
              ExpectedSteps(com, handle, probes)[j].DriverInitialize?
              || ExpectedSteps(com, handle, probes)[j].DriverIoControl?
              || ExpectedSteps(com, handle, probes)[j].DriverCloseHandle?
    ensures ExpectedSteps(com, handle, probes)[|ExpectedSteps(com, handle, probes)| - 1].WmiCleanup?
  {
    if handle.DeviceHandle? {
      ProbeStepsOnlyRequests(handle.id, probes);
    }
    p := if InitializeSucceeds(com) then 2 else 1;
  }

  /** Every zone whose reply is above 0 is reported, in increasing zone order. */
  lemma {:induction false} ProbeReportComplete(replies: seq<Option<real>>, n: nat)
    ensures forall k, l :: 0 <= k < l < |ProbeReport(replies, n)| ==>
              ProbeReport(replies, n)[k].zone < ProbeReport(replies, n)[l].zone
    ensures forall i :: 0 <= i < n && Reported(ReplyFor(replies, i)) ==>
              ZoneReading(i, ReplyFor(replies, i).value) in ProbeReport(replies, n)
  {
    if n > 0 {
      ProbeReportComplete(replies, n - 1);
    }
  }

  /** A sentinel reply, or a driver that writes nothing, is never reported. */
  lemma SentinelNotReported(replies: seq<Option<real>>, n: nat, i: int)
    requires ReplyFor(replies, i) == None || ReplyFor(replies, i) == Some(SENTINEL)
    ensures forall k :: 0 <= k < |ProbeReport(replies, n)| ==> ProbeReport(replies, n)[k].zone != i
  {
  }
}
