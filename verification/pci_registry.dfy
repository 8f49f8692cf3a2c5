/** The device registry of kernel/pci.hpp: a fixed array of 32 records and
    the count `num_device`, plus `AddDevice` from kernel/pci.cpp. */
module PciRegistry {
  import opened Errors
  import opened PciConfig

  /** `devices.size()`. */
  const Capacity: nat := 32

  /** The all-zero record a statically allocated `Device` starts as. */
  const ZeroDevice: Device := Device(0, 0, 0, 0, ClassCode(0, 0, 0))

  datatype Registry = Registry(devices: seq<Device>, numDevice: int)
  {
    /** The array has its fixed size and the count stays within it. */
    predicate Valid()
    {
      |devices| == Capacity && 0 <= numDevice <= Capacity
    }
  }

  /** The registry before any scan: zeroed storage, count 0. */
  function InitialRegistry(): (reg: Registry)
    ensures reg.Valid() && reg.numDevice == 0
    ensures forall k :: 0 <= k < Capacity ==> reg.devices[k] == ZeroDevice
  {
    Registry(seq(Capacity, _ => ZeroDevice), 0)
  }

  /** `AddDevice`: append one record, reading its class code, unless the
      registry is full. */
  function AddDevice(cs: ConfigSpace, reg: Registry, bus: bv8, device: bv8, func: bv8, headerType: bv8)
    : (r: WithError<Registry>)
    requires reg.Valid()
    ensures r.value.Valid()
    ensures reg.numDevice == Capacity ==> r == WithError(reg, MakeError(Full))
    ensures reg.numDevice < Capacity ==>
              && r.error.code == Success
              && r.value.numDevice == reg.numDevice + 1
              && r.value.devices[reg.numDevice]
                 == Device(bus, device, func, headerType, ReadClassCode(cs, bus, device, func))
              && forall k :: 0 <= k < Capacity && k != reg.numDevice ==> r.value.devices[k] == reg.devices[k]
  {
    if reg.numDevice == |reg.devices| then WithError(reg, MakeError(Full))
    else
      var classCode := ReadClassCode(cs, bus, device, func);
      var entry := Device(bus, device, func, headerType, classCode);
      WithError(reg.(devices := reg.devices[reg.numDevice := entry], numDevice := reg.numDevice + 1),
                MakeError(Success))
  }

  /** Adding fails exactly when the registry is full, and a failed add
      leaves everything as it was. */
  lemma AddDeviceFailsIffFull(cs: ConfigSpace, reg: Registry, bus: bv8, device: bv8, func: bv8, headerType: bv8)
    requires reg.Valid()
    ensures var r := AddDevice(cs, reg, bus, device, func, headerType);
            Failed(r.error) <==> reg.numDevice == Capacity
    ensures var r := AddDevice(cs, reg, bus, device, func, headerType);
            Failed(r.error) ==> r.value == reg
  {
  }
}
