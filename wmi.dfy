/**
 * `WMITemperatureReader`: connects to the `ROOT\WMI` namespace and streams
 * the `MSAcpi_ThermalZoneTemperature` objects.  Every COM call is an input:
 * `initialize` sees the five status codes in ComResults, `readTemperatures`
 * sees the status of `ExecQuery` and what successive `Next` calls deliver.
 */
module Wmi {
  import opened Wrappers
  import opened Win32
  import opened Conversion

  /** The status codes of the five calls `initialize` may make, in order. */
  datatype ComResults = ComResults(
    coInitializeEx: HResult,
    coInitializeSecurity: HResult,
    coCreateInstance: HResult,
    connectServer: HResult,
    coSetProxyBlanket: HResult)

  /** The three checked calls all succeed; the other two results are never looked at. */
  predicate InitializeSucceeds(com: ComResults) {
    Succeeded(com.coInitializeEx) && Succeeded(com.coCreateInstance) && Succeeded(com.connectServer)
  }

  /**
   * One enumerated object, seen through `Get(L"CurrentTemperature", ...)`:
   * the call's status, and the variant's type tag and 32-bit integer member.
   */
  datatype WmiObject = WmiObject(getResult: HResult, vt: nat, intVal: int32)

  /** A reading is emitted for an object exactly when `Get` succeeded with a `VT_I4` variant. */
  predicate Usable(obj: WmiObject) {
    Succeeded(obj.getResult) && obj.vt == VT_I4
  }

  /** A `Next` call that delivered a usable object. */
  predicate Emits(next: Option<WmiObject>) {
    next.Some? && Usable(next.value)
  }

  /** The reading emitted for such a call: `CurrentTemperature` converted to Celsius. */
  function EmittedReading(next: Option<WmiObject>): real
    requires Emits(next)
  {
    WmiCelsius(next.value.intVal)
  }

  /**
   * One `Next` call per element: Some(obj) when it returned one object,
   * None when `uReturn` was 0.  Running off the end also reads as 0 objects.
   * EndOfEnumeration is the number of `Next` calls that delivered an object.
   */
  function EndOfEnumeration(stream: seq<Option<WmiObject>>): (n: nat)
    ensures n <= |stream|
    ensures forall j :: 0 <= j < n ==> stream[j].Some?
    ensures n < |stream| ==> stream[n].None?
  {
    if stream == [] || stream[0].None? then 0 else 1 + EndOfEnumeration(stream[1..])
  }

  /** The readings emitted for the delivered objects `delivered`, in order. */
  function ReadingsOf(delivered: seq<Option<WmiObject>>): (readings: seq<real>)
    ensures |readings| <= |delivered|
  {
    if delivered == [] then []
    else
      var last := delivered[|delivered| - 1];
      ReadingsOf(delivered[..|delivered| - 1]) + (if Emits(last) then [EmittedReading(last)] else [])
  }

  /** What `readTemperatures` emits once `ExecQuery` has succeeded. */
  function WmiReadings(stream: seq<Option<WmiObject>>): seq<real> {
    ReadingsOf(stream[..EndOfEnumeration(stream)])
  }

  /** The teardown calls `cleanup` makes. */
  datatype ComTeardown = ReleaseServices | ReleaseLocator | CoUninitialize

  /** The calls `cleanup` makes, given which of the two pointers are set. */
  function TeardownCalls(hasServices: bool, hasLocator: bool): seq<ComTeardown> {
    (if hasServices then [ReleaseServices] else [])
      + (if hasLocator then [ReleaseLocator] else [])
      + [CoUninitialize]
  }

  /** Each set pointer is released exactly once, the other one never, and COM is always uninitialised. */
  lemma TeardownReleasesOnce(hasServices: bool, hasLocator: bool)
    ensures multiset(TeardownCalls(hasServices, hasLocator))[ReleaseServices] == if hasServices then 1 else 0
    ensures multiset(TeardownCalls(hasServices, hasLocator))[ReleaseLocator] == if hasLocator then 1 else 0
    ensures multiset(TeardownCalls(hasServices, hasLocator))[CoUninitialize] == 1
  {
  }

  class WmiReader {
    /** `pLoc != nullptr`. */
    var hasLocator: bool
    /** `pSvc != nullptr`. */
    var hasServices: bool

    constructor ()
      ensures !hasLocator && !hasServices
    {
      hasLocator, hasServices := false, false;
    }

    /**
     * `initialize`: a short-circuiting chain of three checked calls.  A COM
     * call that fails leaves its out-pointer null, so `pLoc` is set exactly
     * when `CoCreateInstance` succeeds and `pSvc` when `ConnectServer` does.
     */
    method Initialize(com: ComResults) returns (ok: bool)
      modifies this
      ensures ok == InitializeSucceeds(com)
      ensures Failed(com.coInitializeEx) ==>
                hasLocator == old(hasLocator) && hasServices == old(hasServices)
      ensures Succeeded(com.coInitializeEx) ==> hasLocator == Succeeded(com.coCreateInstance)
      ensures Succeeded(com.coInitializeEx) && Failed(com.coCreateInstance) ==>
                hasServices == old(hasServices)
      ensures Succeeded(com.coInitializeEx) && Succeeded(com.coCreateInstance) ==>
                hasServices == Succeeded(com.connectServer)
    {
      if Failed(com.coInitializeEx) {
        return false;
      }
      // CoInitializeSecurity: its result is not checked.
      hasLocator := Succeeded(com.coCreateInstance);
      if Failed(com.coCreateInstance) {
        return false;
      }
      hasServices := Succeeded(com.connectServer);
      if Failed(com.connectServer) {
        return false;
      }
      // CoSetProxyBlanket: its result is not checked.
      return true;
    }

    /**
     * `readTemperatures`: nothing when `ExecQuery` fails; otherwise one
     * reading per delivered object that passes Usable, until `Next`
     * returns 0 objects.  The call dereferences `pSvc`, so the services
     * pointer must be set.
     */
    method ReadTemperatures(execQuery: HResult, stream: seq<Option<WmiObject>>)
      returns (readings: seq<real>)
      requires hasServices
      ensures Failed(execQuery) ==> readings == []
      ensures Succeeded(execQuery) ==> readings == WmiReadings(stream)
    {
      readings := [];
      if Failed(execQuery) {
        return;
      }
      var i := 0;
      while i < |stream| && stream[i].Some?
        invariant i <= |stream|
        invariant forall j :: 0 <= j < i ==> stream[j].Some?
        invariant readings == ReadingsOf(stream[..i])
        decreases |stream| - i
      {
        var obj := stream[i].value;
        if Succeeded(obj.getResult) && obj.vt == VT_I4 {
          var tempKelvin := obj.intVal as real / 10.0;
          var tempCelsius := tempKelvin - 273.15;
          readings := readings + [tempCelsius];
        }
        assert stream[..i + 1][..i] == stream[..i];
        i := i + 1;
      }
      assert i == EndOfEnumeration(stream);
    }

    /**
     * `cleanup`, run by the destructor: releases the services pointer, then
     * the locator, each only when set, and always ends with `CoUninitialize`,
     * even when `CoInitializeEx` had failed.
     */
    method Cleanup() returns (calls: seq<ComTeardown>)
      ensures calls == TeardownCalls(hasServices, hasLocator)
      ensures |calls| >= 1 && calls[|calls| - 1] == CoUninitialize
      ensures (ReleaseServices in calls) == hasServices
      ensures (ReleaseLocator in calls) == hasLocator
      ensures |calls| == 1 + (if hasServices then 1 else 0) + (if hasLocator then 1 else 0)
      ensures hasServices && hasLocator ==> calls[0] == ReleaseServices && calls[1] == ReleaseLocator
    {
      calls := [];
      if hasServices {
        calls := calls + [ReleaseServices];
      }
      if hasLocator {
        calls := calls + [ReleaseLocator];
      }
      calls := calls + [CoUninitialize];
    }
  }

  /**
   * The readings are exactly those of the usable objects delivered before
   * the first `Next` that returns 0, in enumeration order: `idx` is the
   * strictly increasing list of the `Next` calls that produced a reading.
   */
  lemma {:induction false} ReadingsOfSelects(delivered: seq<Option<WmiObject>>) returns (idx: seq<nat>)
    ensures |idx| == |ReadingsOf(delivered)|
    ensures forall k :: 0 <= k < |idx| ==>
              idx[k] < |delivered| && Emits(delivered[idx[k]]) && ReadingsOf(delivered)[k] == EmittedReading(delivered[idx[k]])
    ensures forall k, l :: 0 <= k < l < |idx| ==> idx[k] < idx[l]
    ensures forall i :: 0 <= i < |delivered| && Emits(delivered[i]) ==> i in idx
  {
    if delivered == [] {
      idx := [];
    } else {
      var n := |delivered| - 1;
      var front := delivered[..n];
      var before := ReadingsOfSelects(front);
      assert forall i :: 0 <= i < n ==> front[i] == delivered[i];
      idx := before + (if Emits(delivered[n]) then [n] else []);
    }
  }

  /** WmiReadings' characterisation, over the whole stream. */
  lemma WmiReadingsSelects(stream: seq<Option<WmiObject>>) returns (idx: seq<nat>)
    ensures |idx| == |WmiReadings(stream)|
    ensures forall k :: 0 <= k < |idx| ==>
              && idx[k] < EndOfEnumeration(stream)
              && Emits(stream[idx[k]])
              && WmiReadings(stream)[k] == WmiCelsius(stream[idx[k]].value.intVal)
    ensures forall k, l :: 0 <= k < l < |idx| ==> idx[k] < idx[l]
    ensures forall i :: 0 <= i < EndOfEnumeration(stream) && Usable(stream[i].value) ==> i in idx
  {
    var end := EndOfEnumeration(stream);
    idx := ReadingsOfSelects(stream[..end]);
  }

  /** Objects after the first `Next` that returns 0 are never looked at. */
  lemma {:induction false} StopsAtFirstEmptyNext(
    delivered: seq<Option<WmiObject>>, rest: seq<Option<WmiObject>>)
    requires forall j :: 0 <= j < |delivered| ==> delivered[j].Some?
    ensures WmiReadings(delivered + [None] + rest) == ReadingsOf(delivered)
  {
    var stream := delivered + [None] + rest;
    assert stream[|delivered|] == None;
    assert stream[..|delivered|] == delivered;
  }

  /** One object with `CurrentTemperature = 2982` yields one reading of 25.05 °C. */
  lemma SingleObjectExample()
    ensures WmiReadings([Some(WmiObject(0, VT_I4, 2982)), None]) == [25.05]
  {
  }
}
