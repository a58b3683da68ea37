/**
 * `ACPITemperatureReader`: walks the subkeys of
 * `HKEY_LOCAL_MACHINE\HARDWARE\ACPI\ThermalZone`, reads each zone's
 * `Thermal\Temperature` value and keeps the zones whose decoded temperature
 * is positive.  The registry is an input: what `RegOpenKeyExA` on the root
 * key returns, and then, index by index, what `RegEnumKeyExA`, the open of
 * `<zone>\Thermal` and `RegQueryValueExA` of `Temperature` deliver.
 */
module AcpiTable {
  import opened Wrappers
  import opened Win32
  import opened Conversion

  /** `ACPI_THERMAL_ZONE`: a zone name and its temperature in degrees Celsius. */
  datatype ThermalZone = ThermalZone(name: string, temperature: real)

  /** What opening `<zone>\Thermal` and querying its `Temperature` value yields. */
  datatype ThermalKey =
    | ThermalKeyUnavailable                        // RegOpenKeyExA of `<zone>\Thermal` failed
    | ThermalKeyOpened(temperature: Option<uint32>) // None: RegQueryValueExA failed

  /** What `RegEnumKeyExA` yields at one index of the root key. */
  datatype SubkeyEntry =
    | EnumFailed
    | Enumerated(name: string, thermal: ThermalKey)

  /** The `Temperature` value was read, so `tempData` holds `thermal.temperature.value`. */
  predicate HasRawTemperature(thermal: ThermalKey) {
    thermal.ThermalKeyOpened? && thermal.temperature.Some?
  }

  /**
   * `readThermalZoneInfo`: the zone starts at 0.0 °C and takes the decoded
   * value only when both the `Thermal` key and its `Temperature` value are there.
   */
  function ReadThermalZoneInfo(name: string, thermal: ThermalKey): (zone: ThermalZone)
    ensures zone.name == name
    ensures zone.temperature >= 0.0
    ensures zone.temperature > 0.0 <==>
              HasRawTemperature(thermal) && thermal.temperature.value != ACPI_OFFSET_TENTHS
    ensures HasRawTemperature(thermal) ==>
              zone.temperature * 10.0 == RegistryTenths(thermal.temperature.value) as real
  {
    var zone := ThermalZone(name, 0.0);
    match thermal
    case ThermalKeyUnavailable => zone
    case ThermalKeyOpened(None) => zone
    case ThermalKeyOpened(Some(raw)) => zone.(temperature := RegistryCelsius(raw))
  }

  /**
   * The entries that end up in the result, stated on the input alone: the
   * subkey was enumerated, its `Temperature` value was read, and the value is
   * not exactly the offset 2732 (the only value whose unsigned difference is 0).
   */
  predicate Kept(entry: SubkeyEntry) {
    && entry.Enumerated?
    && HasRawTemperature(entry.thermal)
    && entry.thermal.temperature.value != ACPI_OFFSET_TENTHS
  }

  /** The zone that a kept entry contributes. */
  function KeptZone(entry: SubkeyEntry): (zone: ThermalZone)
    requires Kept(entry)
    ensures zone.name == entry.name
    ensures zone.temperature > 0.0
  {
    ThermalZone(entry.name, RegistryCelsius(entry.thermal.temperature.value))
  }

  /** The zones that enumerating `entries` in order yields. */
  function ZonesOf(entries: seq<SubkeyEntry>): (zones: seq<ThermalZone>)
    ensures |zones| <= |entries|
    ensures forall k :: 0 <= k < |zones| ==> zones[k].temperature > 0.0
  {
    if entries == [] then []
    else
      var last := entries[|entries| - 1];
      ZonesOf(entries[..|entries| - 1]) + (if Kept(last) then [KeptZone(last)] else [])
  }

  /**
   * `readThermalZones`.  `root` is None when the root key cannot be opened;
   * otherwise it holds one entry per index below `subkeyCount`.
   */
  method ReadThermalZones(root: Option<seq<SubkeyEntry>>) returns (zones: seq<ThermalZone>)
    ensures root.None? ==> zones == []
    ensures root.Some? ==> zones == ZonesOf(root.value)
    ensures forall k :: 0 <= k < |zones| ==> zones[k].temperature > 0.0
  {
    zones := [];
    if root.None? {
      return;
    }
    var subkeys := root.value;
    var subkeyCount := |subkeys|;
    for i := 0 to subkeyCount
      invariant zones == ZonesOf(subkeys[..i])
    {
      var entry := subkeys[i];
      if entry.Enumerated? {
        var zone := ReadThermalZoneInfo(entry.name, entry.thermal);
        if zone.temperature > 0.0 {
          zones := zones + [zone];
        }
      }
      assert subkeys[..i + 1][..i] == subkeys[..i];
    }
    assert subkeys[..subkeyCount] == subkeys;
  }

  /**
   * The result is exactly the kept entries, in enumeration order: `idx` lists
   * the enumeration index each zone came from, strictly increasing, and every
   * kept index is among them.  Each zone carries its subkey's name.
   */
  lemma {:induction false} ZonesOfSelects(entries: seq<SubkeyEntry>) returns (idx: seq<nat>)
    ensures |idx| == |ZonesOf(entries)|
    ensures forall k :: 0 <= k < |idx| ==>
              idx[k] < |entries| && Kept(entries[idx[k]]) && ZonesOf(entries)[k] == KeptZone(entries[idx[k]])
    ensures forall k, l :: 0 <= k < l < |idx| ==> idx[k] < idx[l]
    ensures forall i :: 0 <= i < |entries| && Kept(entries[i]) ==> i in idx
  {
    if entries == [] {
      idx := [];
    } else {
      var n := |entries| - 1;
      var front := entries[..n];
      var before := ZonesOfSelects(front);
      assert forall i :: 0 <= i < n ==> front[i] == entries[i];
      idx := before + (if Kept(entries[n]) then [n] else []);
    }
  }

  /**
   * The loop's filter, applied to what `readThermalZoneInfo` returns, keeps
   * exactly the entries Kept describes: a zone is dropped when its subkey
   * cannot be enumerated, its `Thermal` key or `Temperature` value is
   * missing (it keeps 0.0), or its raw value is exactly 2732.
   */
  lemma KeptIffPositive(entry: SubkeyEntry)
    ensures Kept(entry) <==>
              entry.Enumerated? && ReadThermalZoneInfo(entry.name, entry.thermal).temperature > 0.0
  {
  }

  /** One zone "ZN1" with raw value 3032 yields exactly that zone at 30.0 °C. */
  lemma SingleZoneExample()
    ensures ZonesOf([Enumerated("ZN1", ThermalKeyOpened(Some(3032)))]) == [ThermalZone("ZN1", 30.0)]
  {
  }

  /** A zone whose `Temperature` value is absent is left out. */
  lemma MissingValueExample()
    ensures ZonesOf([Enumerated("ZN1", ThermalKeyOpened(None))]) == []
  {
  }
}
