/**
 * Unit conversions done at the reading sites: the registry's ACPI value,
 * a `DWORD` in tenths of a kelvin with 273.2 K taken as 0 °C, and the WMI
 * `CurrentTemperature` property, tenths of a kelvin with 273.15 K as 0 °C.
 * Floating point is idealised as `real`.
 */
module Conversion {
  import opened Win32

  /** 273.2 K in tenths: the offset subtracted from the registry value. */
  const ACPI_OFFSET_TENTHS: uint32 := 2732

  /**
   * `tempData - 2732` evaluated on a 32-bit unsigned `DWORD`: the difference
   * wraps modulo 2^32 instead of going negative.
   */
  function RegistryTenths(raw: uint32): (tenths: nat)
    ensures tenths < DWORD_MODULUS
    ensures raw as int >= 2732 ==> tenths == raw as int - 2732
    ensures raw as int < 2732 ==> tenths == raw as int - 2732 + DWORD_MODULUS
  {
    DwordSub(raw, ACPI_OFFSET_TENTHS) as int
  }

  /** `(tempData - 2732) / 10.0`: the registry value in degrees Celsius. */
  function RegistryCelsius(raw: uint32): (celsius: real)
    ensures celsius * 10.0 == RegistryTenths(raw) as real
    ensures celsius >= 0.0
    ensures celsius == 0.0 <==> raw == ACPI_OFFSET_TENTHS
  {
    RegistryTenths(raw) as real / 10.0
  }

  /** The raw registry value that decodes to `tenths` (the inverse of RegistryTenths). */
  function RegistryRaw(tenths: nat): (raw: uint32)
    requires tenths < DWORD_MODULUS
    ensures RegistryTenths(raw) == tenths
  {
    DwordAdd(tenths as uint32, ACPI_OFFSET_TENTHS)
  }

  /** Decoding loses nothing: every raw value is recovered from its decoded tenths. */
  lemma RegistryRawOfTenths(raw: uint32)
    ensures RegistryRaw(RegistryTenths(raw)) == raw
  {
  }

  /** Decoding is injective, so two zones with different raw values never report the same temperature. */
  lemma RegistryCelsiusInjective(a: uint32, b: uint32)
    requires RegistryCelsius(a) == RegistryCelsius(b)
    ensures a == b
  {
  }

  /** A raw value of 3032 decodes to 30.0 °C. */
  lemma RegistryExample()
    ensures RegistryTenths(3032) == 300 && RegistryCelsius(3032) == 30.0
  {
  }

  /**
   * A raw value below the offset does not give a negative temperature: 2700
   * (-3.2 °C on the ACPI scale) wraps to 429496726.4 °C.
   */
  lemma RegistryBelowOffsetWraps()
    ensures RegistryTenths(2700) == 4294967264
    ensures RegistryCelsius(2700) == 429496726.4
  {
  }

  /**
   * `intVal / 10.0 - 273.15`: the WMI value in degrees Celsius.  Its ensures
   * is the inverse conversion: `celsius * 10 + 2731.5` recovers the tenths
   * of a kelvin exactly.
   */
  function WmiCelsius(kelvinTenths: int32): (celsius: real)
    ensures celsius * 10.0 + 2731.5 == kelvinTenths as real
  {
    kelvinTenths as real / 10.0 - 273.15
  }

  /** The conversion preserves order, so a hotter sensor reads hotter. */
  lemma WmiCelsiusMonotonic(a: int32, b: int32)
    requires a < b
    ensures WmiCelsius(a) < WmiCelsius(b)
  {
  }

  /** 2982 tenths of a kelvin is 25.05 °C. */
  lemma WmiExample()
    ensures WmiCelsius(2982) == 25.05
  {
  }
}
