/**
 * `ACPIDriverInterface`: a handle to the `\\.\AcpiDev` device, opened by
 * `initialize`, used for one `DeviceIoControl` per zone and closed by the
 * destructor.  What `CreateFileA` returns and what the driver writes into
 * the output buffer are inputs; the control request a read issues and the
 * handle the destructor closes are outputs.
 */
module Driver {
  import opened Wrappers
  import opened Win32

  /** The value of `hDriver`: `INVALID_HANDLE_VALUE` or an open device handle. */
  datatype Handle = InvalidHandle | DeviceHandle(id: nat)

  /** `FILE_DEVICE_ACPI`, `METHOD_BUFFERED` and `FILE_READ_ACCESS` from the Windows headers. */
  const FILE_DEVICE_ACPI: nat := 0x32
  const METHOD_BUFFERED: nat := 0
  const FILE_READ_ACCESS: nat := 1

  /**
   * The `CTL_CODE` macro, `(type << 16) | (access << 14) | (function << 2) | method`;
   * with every field inside its width the bit fields do not overlap, so `|` is `+`.
   */
  function CtlCode(deviceType: nat, functionCode: nat, transfer: nat, access: nat): (code: nat)
    requires deviceType < 0x10000 && access < 4 && functionCode < 0x1000 && transfer < 4
    ensures code % 4 == transfer
    ensures code / 4 % 0x1000 == functionCode
    ensures code / 0x4000 % 4 == access
    ensures code / 0x10000 == deviceType
  {
    deviceType * 0x10000 + access * 0x4000 + functionCode * 4 + transfer
  }

  /** The control code of the temperature request: function 0x800 on the ACPI device. */
  const THERMAL_IOCTL: nat := CtlCode(FILE_DEVICE_ACPI, 0x800, METHOD_BUFFERED, FILE_READ_ACCESS)

  lemma ThermalIoctlValue()
    ensures THERMAL_IOCTL == 0x32_6000
  {
  }

  /** One `DeviceIoControl` call: the handle, the control code and the 4-byte zone index sent. */
  datatype IoRequest = IoRequest(handle: nat, controlCode: nat, zoneIndex: int32)

  /** The value returned when no temperature is available. */
  const SENTINEL: real := -1.0

  class DriverInterface {
    var handle: Handle
    /** Every `DeviceIoControl` request issued through this object, in order. */
    ghost var issued: seq<IoRequest>

    constructor ()
      ensures handle == InvalidHandle && issued == []
    {
      handle := InvalidHandle;
      issued := [];
    }

    /** `initialize`: stores what `CreateFileA` returned and reports whether it is valid. */
    method Initialize(created: Handle) returns (ok: bool)
      modifies this`handle
      ensures handle == created
      ensures ok <==> handle != InvalidHandle
    {
      handle := created;
      ok := handle != InvalidHandle;
    }

    /**
     * `readThermalZoneTemperature`.  On an invalid handle it returns the
     * sentinel and issues nothing.  Otherwise it issues exactly one request
     * for `zoneIndex`; `reply` is what the driver wrote into the 8-byte
     * output (None when it left it untouched, so the initial -1.0 remains).
     */
    method ReadThermalZoneTemperature(zoneIndex: int32, reply: Option<real>)
      returns (temperature: real, request: Option<IoRequest>)
      modifies this`issued
      ensures issued == old(issued) + (if request.Some? then [request.value] else [])
      ensures handle == InvalidHandle ==> temperature == SENTINEL && request == None
      ensures handle != InvalidHandle ==>
                request == Some(IoRequest(handle.id, THERMAL_IOCTL, zoneIndex))
      ensures handle != InvalidHandle && reply.Some? ==> temperature == reply.value
      ensures reply.None? ==> temperature == SENTINEL
    {
      if handle == InvalidHandle {
        return SENTINEL, None;
      }
      temperature := SENTINEL;
      request := Some(IoRequest(handle.id, THERMAL_IOCTL, zoneIndex));
      issued := issued + [request.value];
      if reply.Some? {
        temperature := reply.value;
      }
    }

    /** The destructor: `CloseHandle` on the device handle, only when it is valid. */
    method Dispose() returns (closed: Option<nat>)
      ensures closed.Some? <==> handle != InvalidHandle
      ensures closed.Some? ==> closed.value == handle.id
    {
      if handle != InvalidHandle {
        closed := Some(handle.id);
      } else {
        closed := None;
      }
    }
  }
}
