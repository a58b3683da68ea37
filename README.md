# ACPI temperature reader, modelled in Dafny

This project models `C++/main.cpp`, a Windows console program that reads
thermal-zone temperatures in three independent ways and prints what each
way finds:

1. **WMI** (`WMITemperatureReader`). It connects to the `ROOT\WMI` namespace
   and streams the `MSAcpi_ThermalZoneTemperature` objects. For each object
   whose `CurrentTemperature` comes back as a `VT_I4` variant it prints
   `intVal / 10 - 273.15` °C.
2. **The registry** (`ACPITemperatureReader`). It walks the subkeys of
   `HKLM\HARDWARE\ACPI\ThermalZone` and decodes each zone's
   `Thermal\Temperature` `DWORD` as `(tempData - 2732) / 10`. It keeps only
   zones above 0.
3. **A driver** (`ACPIDriverInterface`). It opens `\\.\AcpiDev` and sends one
   `DeviceIoControl` request per zone index. The sentinel -1.0 stands for
   "no value".

`main` runs the three in that order. The WMI reads are gated on WMI's
`initialize`. The driver probes zones 0 to 9, gated on its own `initialize`,
and only readings above 0 are printed.

Every Windows call is an input of the model. The model sees:

- the `HRESULT` of each COM call;
- one `Option` per `Next` call;
- and, for the registry, one entry per subkey index: whether
  `RegEnumKeyExA` succeeded, whether `<zone>\Thermal` could be opened, and
  the `Temperature` value if any.

The model then proves the program's own decisions about those inputs.

Observable effects are outputs of the model:

- the readings `main` would print;
- the control request a driver read issues;
- the handles the destructors release;
- the sequence of reader operations `main` performs.

Files, one module each:

- `wrappers.dfy`: `Option`.
- `win32.dfy`: `int32`, `uint32` with wrap-around subtraction, `HRESULT` and
  `FAILED`.
- `conversion.dfy`: the two unit conversions.
- `acpi_table.dfy`: the registry reader.
- `wmi.dfy`: the WMI reader, as a class over its two COM pointers.
- `driver.dfy`: the driver interface, as a class over its handle.
- `orchestrator.dfy`: `main`.

Behaviour worth knowing, all proved:

- `tempData` is an unsigned 32-bit `DWORD`, so `tempData - 2732` wraps modulo
  2^32 and is never negative. The "> 0" filter therefore drops a zone that
  has a value only when the raw value is exactly 2732.
- A raw value below 2732 does not give a negative temperature. For example,
  2700 gives 429496726.4 °C, and that zone is kept (`RegistryBelowOffsetWraps`).
- `readTemperatures` dereferences `pSvc`, so the model requires a
  connected reader. `main` only calls it then, and `Run` proves that this
  precondition is met.
- `cleanup` calls `CoUninitialize` unconditionally, even when
  `CoInitializeEx` failed.

## Model

| member | source | states |
|---|---|---|
| Win32.DwordSub | C++/main.cpp:147-155 | `DWORD` subtraction gives the exact difference when there is no borrow; with a borrow it gives the difference plus 2^32, never a negative value |
| Win32.DwordAdd | C++/main.cpp:155 | wrap-around addition undoes wrap-around subtraction of the same operand |
| Conversion.RegistryTenths | C++/main.cpp:147-155 | the decoded tenths are below 2^32; they equal raw - 2732 when raw >= 2732 and raw - 2732 + 2^32 otherwise |
| Conversion.RegistryCelsius | C++/main.cpp:155 | the registry temperature is 1/10 of the decoded tenths, never negative, and 0 exactly when the raw value is 2732 |
| Conversion.RegistryRaw | C++/main.cpp:155 | every value of decoded tenths below 2^32 has a raw value that decodes to it |
| Conversion.RegistryRawOfTenths | C++/main.cpp:155 | decoding loses nothing: the raw value is recovered from its decoded tenths |
| Conversion.RegistryCelsiusInjective | C++/main.cpp:155 | two raw values with the same decoded temperature are equal |
| Conversion.RegistryExample | C++/main.cpp:155 | raw 3032 decodes to 300 tenths, 30.0 °C |
| Conversion.RegistryBelowOffsetWraps | C++/main.cpp:147-155 | raw 2700 wraps to 4294967264 tenths, 429496726.4 °C, rather than -3.2 °C |
| Conversion.WmiCelsius | C++/main.cpp:77-78 | the WMI temperature c satisfies c * 10 + 2731.5 == intVal, the inverse conversion |
| Conversion.WmiCelsiusMonotonic | C++/main.cpp:77-78 | the WMI conversion is strictly increasing |
| Conversion.WmiExample | C++/main.cpp:77-78 | 2982 tenths of a kelvin is 25.05 °C |
| AcpiTable.ReadThermalZoneInfo | C++/main.cpp:140-162 | the zone keeps its subkey name; its temperature is never negative; it is positive iff the `Thermal` key opened, the `Temperature` value was read and that value is not 2732; when the value was read, the temperature is its decoded tenths / 10 |
| AcpiTable.KeptZone | C++/main.cpp:141-155 | a kept entry contributes a zone named after its subkey with a positive temperature |
| AcpiTable.ZonesOf | C++/main.cpp:123-133 | the zones of an enumeration are no more numerous than the subkeys, and every one is above 0 °C |
| AcpiTable.ReadThermalZones | C++/main.cpp:104-137 | the loop returns nothing when the root key cannot be opened; otherwise it returns exactly ZonesOf of the enumerated subkeys, all above 0 °C |
| AcpiTable.ZonesOfSelects | C++/main.cpp:123-133 | the result is the subsequence of kept subkeys in enumeration order: each zone comes from a strictly later index than the previous one, carries that subkey's name and decoded temperature, and every kept index appears |
| AcpiTable.KeptIffPositive | C++/main.cpp:127-130 | a subkey passes the `temperature > 0` filter iff it was enumerated, its value was read and the value is not 2732 |
| AcpiTable.SingleZoneExample | C++/main.cpp:123-155 | a single zone "ZN1" with raw 3032 yields exactly [("ZN1", 30.0)] |
| AcpiTable.MissingValueExample | C++/main.cpp:141-156 | a zone whose `Temperature` value is absent keeps 0.0 and is excluded |
| Wmi.EndOfEnumeration | C++/main.cpp:68-70 | the loop runs until the first `Next` that returns 0 objects: every earlier call delivered an object |
| Wmi.ReadingsOf | C++/main.cpp:68-84 | at most one reading per delivered object |
| Wmi.WmiReader.constructor | C++/main.cpp:16 | both COM pointers start null |
| Wmi.WmiReader.Initialize | C++/main.cpp:22-52 | success iff `CoInitializeEx`, `CoCreateInstance` and `ConnectServer` all succeed; the chain short-circuits, the locator is set iff `CoCreateInstance` succeeds and the services pointer iff `ConnectServer` does |
| Wmi.WmiReader.ReadTemperatures | C++/main.cpp:54-87 | nothing when `ExecQuery` fails; otherwise exactly WmiReadings of the `Next` results |
| Wmi.WmiReader.Cleanup | C++/main.cpp:90-94 | releases the services pointer iff set, then the locator iff set, and always ends with `CoUninitialize` |
| Wmi.TeardownReleasesOnce | C++/main.cpp:90-94 | each COM pointer that was set is released exactly once, one that was not set never, and `CoUninitialize` is called once |
| Wmi.ReadingsOfSelects | C++/main.cpp:68-84 | the readings are, in order, those of exactly the delivered objects whose `Get` succeeded with `VT_I4`, each converted from its `intVal` |
| Wmi.WmiReadingsSelects | C++/main.cpp:63-84 | over a whole `Next` stream: readings come only from objects before the first empty `Next`, in increasing order, and every usable object before it contributes one |
| Wmi.StopsAtFirstEmptyNext | C++/main.cpp:69-70 | whatever follows the first `Next` that returns 0 objects never affects the readings |
| Wmi.SingleObjectExample | C++/main.cpp:73-78 | one object with `CurrentTemperature` 2982 yields one reading, 25.05 °C |
| Driver.CtlCode | C++/main.cpp:195 | the control code packs device type, access, function and method into disjoint bit fields that decode back to each field |
| Driver.ThermalIoctlValue | C++/main.cpp:195 | the temperature request's control code is 0x326000 |
| Driver.DriverInterface.constructor | C++/main.cpp:170 | the handle starts as `INVALID_HANDLE_VALUE` and no request has been issued |
| Driver.DriverInterface.Initialize | C++/main.cpp:172-184 | stores the handle `CreateFileA` returned and reports whether it is valid |
| Driver.DriverInterface.ReadThermalZoneTemperature | C++/main.cpp:186-202 | on an invalid handle, returns -1.0 and issues no request; otherwise issues exactly one request with the handle, the control code and the zone index, and appends it to the object's log of issued requests; returns the driver's value, or -1.0 when the driver leaves the output untouched |
| Driver.DriverInterface.Dispose | C++/main.cpp:204-208 | closes the handle iff it is valid, and closes that handle |
| Orchestrator.ProbeReport | C++/main.cpp:234-239 | every printed driver reading is for a probed index, is above 0, and is the driver's reply for that index |
| Orchestrator.ProbeRequests | C++/main.cpp:234-235 | the probe loop's requests are one per probed index, the k-th for zone k with the temperature control code |
| Orchestrator.ProbeSteps | C++/main.cpp:234-235 | the probe loop makes one control request per probed index |
| Orchestrator.ProbeZones | C++/main.cpp:234-239 | the loop over zones 0 to 9 reports exactly ProbeReport of the driver's replies, records ProbeSteps, and adds exactly ProbeRequests to the driver's log of issued requests |
| Orchestrator.Run | C++/main.cpp:211-243 | `main` prints the WMI readings iff `initialize` and `ExecQuery` succeed, the registry zones whatever WMI did, and the positive driver readings for zones 0 to 9 iff the handle is valid; the operations it performs are ExpectedSteps, and the requests the driver object issued are exactly ProbeRequests for zones 0 to 9 on a valid handle and none otherwise |
| Orchestrator.ProbeStepsRequests | C++/main.cpp:234-235 | a request is in the probe loop's steps iff it is for the device handle, carries the temperature control code and has a zone index below the probe count |
| Orchestrator.ProbeStepsAreRequests | C++/main.cpp:234-235 | the k-th probe step is the k-th of ProbeRequests |
| Orchestrator.ProbeStepsOnlyRequests | C++/main.cpp:234-235 | the probe loop performs control requests and nothing else |
| Orchestrator.StepsByOutcome | C++/main.cpp:216-240 | the registry is always read; WMI is read iff its `initialize` succeeded; a control request is sent iff the driver handle is valid and the request is for that handle, the temperature control code and a zone index in range |
| Orchestrator.DriverClosedOnce | C++/main.cpp:204-208 | over a run, the device handle is closed once if valid and never otherwise |
| Orchestrator.WmiCleanedUpOnceAtEnd | C++/main.cpp:18-20 | the WMI reader's cleanup happens once, as the last operation of the run, with the teardown of the pointers `initialize` obtained |
| Orchestrator.StepsInOrder | C++/main.cpp:214-240 | the operations come in phases: WMI, then the registry, then the driver, then the destructors' WMI cleanup |
| Orchestrator.ProbeReportComplete | C++/main.cpp:234-239 | driver readings come in increasing zone order, and every zone whose reply is above 0 is printed |
| Orchestrator.SentinelNotReported | C++/main.cpp:190-201 | a zone whose reply is absent or the -1.0 sentinel is never printed |

## Left out

- The Windows and COM calls themselves are not modelled. Their results are
  inputs, and the call effects the program depends on are outputs. These
  calls are `CoInitializeEx`, `CoCreateInstance`, `ConnectServer`,
  `ExecQuery`, `Next`, `Get`, the `Reg*` functions, `CreateFileA`,
  `DeviceIoControl`, `CloseHandle`, `Release` and `CoUninitialize`.
- Console output (`std::cout`, `std::wcout`) is not modelled. `Run` returns
  the values that would be printed, not their formatting.
- Floating point is idealised as `real`, both for `intVal / 10.0 - 273.15`
  and for `/ 10.0`. Rounding is not modelled.
- The value the driver writes into the output buffer is an arbitrary input,
  `Option<real>`.
- `RegQueryInfoKey` is taken to succeed. Its subkey count is the length of
  the entry sequence. When the call fails, `subkeyCount` is uninitialised in
  the source, which is undefined behaviour.
- `RegQueryValueExA` is taken to deliver a full 4-byte `DWORD` when it
  succeeds. The value's registry type is not checked by the source and is
  not modelled.
- `RegCloseKey` on the root key and on each opened `Thermal` key is not
  modelled. Each is paired with its open on every path.
- `VariantClear` and `pclsObj->Release()` after each object, and
  `pEnumerator->Release()`, are not modelled.
- Wmi.WmiReader.ReadTemperatures: requires a connected reader instead of
  modelling a read without one. The source dereferences a null `pSvc` in
  that case.
- Rust/src/main.rs is not part of this model. It is a language tutorial
  with no logic.
