/** Depth-first bus enumeration (kernel/pci.cpp `ScanAllBus`, `ScanBus`,
    `ScanDevice`, `ScanFunction`), threaded through the registry.

    Each C++ `for` loop is a function recursing on the loop index. The
    recursion terminates without any assumption about the bus topology:
    `ScanFunction` either fails with kFull or grows the count before it
    descends into a bridge, so `(Capacity - numDevice, call kind, loop
    index)` decreases on every call.

    Two decisions of the source depend on a header type that
    `ReadHeaderType` always reports as 0; those decisions are taken by
    `ScanRemainingFunctions` and `ScanHost`, which receive the header type
    as a parameter, so the multi-function paths stay in the model. */
module PciScan {
  import opened Errors
  import opened PciConfig
  import opened PciRegistry

  /** The registry after an operation, with the error it returned. */
  type Outcome = WithError<Registry>

  const DevicesPerBus: bv8 := 32
  const FunctionsPerDevice: bv8 := 8

  function Succeed(reg: Registry): Outcome
  {
    WithError(reg, MakeError(Success))
  }

  /** The record `ScanFunction` hands to `AddDevice` for a function. */
  function Entry(cs: ConfigSpace, bus: bv8, device: bv8, func: bv8): Device
  {
    Device(bus, device, func, HeaderType(cs, bus, device, func), ReadClassCode(cs, bus, device, func))
  }

  /** `after` arises from `before` by appending: the count did not shrink,
      earlier entries are untouched, and so is the stale storage past the
      new count. */
  ghost predicate Extends(before: Registry, after: Registry)
  {
    && before.Valid()
    && after.Valid()
    && before.numDevice <= after.numDevice
    && (forall k :: 0 <= k < before.numDevice ==> after.devices[k] == before.devices[k])
    && (forall k :: after.numDevice <= k < Capacity ==> after.devices[k] == before.devices[k])
  }

  /** The only failure a scan reports is kFull, and only with a full registry. */
  ghost predicate Settled(r: Outcome)
  {
    || r.error.code == Success
    || (r.error.code == Full && r.value.numDevice == Capacity)
  }

  /** A record describes a present function at a legal position, exactly as
      configuration space describes it. */
  ghost predicate Found(cs: ConfigSpace, e: Device)
  {
    && e.device < DevicesPerBus
    && e.func < FunctionsPerDevice
    && VendorId(cs, e.bus, e.device, e.func) != NoDevice
    && e == Entry(cs, e.bus, e.device, e.func)
  }

  ghost predicate AllFound(cs: ConfigSpace, reg: Registry, lo: int, hi: int)
  {
    forall k :: lo <= k < hi && 0 <= k < |reg.devices| ==> Found(cs, reg.devices[k])
  }

  ghost predicate FunctionZeroOnly(reg: Registry, lo: int, hi: int)
  {
    forall k :: lo <= k < hi && 0 <= k < |reg.devices| ==> reg.devices[k].func == 0
  }

  /** Every present device of `bus` numbered `from` or above has a
      function-0 record among the entries from index `lo` on. */
  ghost predicate Covers(cs: ConfigSpace, reg: Registry, bus: bv8, from: bv8, lo: int)
  {
    forall d: bv8 :: from <= d < DevicesPerBus && VendorId(cs, bus, d, 0) != NoDevice ==>
      exists k :: lo <= k < reg.numDevice && 0 <= k < |reg.devices|
                  && reg.devices[k].bus == bus && reg.devices[k].device == d && reg.devices[k].func == 0
  }

  /** Slot `d` of `bus` holds a device: its function 0 reports a vendor. */
  ghost predicate Present(cs: ConfigSpace, bus: bv8, d: bv8)
  {
    VendorId(cs, bus, d, 0) != NoDevice
  }

  /** `pos` gives, for every present slot of `bus` numbered `from` or above,
      the index of its function-0 record among the entries from `lo` on;
      the positions ascend with the slot number and the first present
      slot's record is at `lo`. */
  ghost predicate InSlotOrder(cs: ConfigSpace, reg: Registry, bus: bv8, from: bv8, lo: int, pos: seq<int>)
  {
    && |pos| == DevicesPerBus as int
    && SlotEntries(cs, reg, bus, from, lo, pos)
    && Ascending(cs, bus, from, pos)
    && HeadAt(cs, bus, from, lo, pos)
  }

  ghost predicate SlotEntries(cs: ConfigSpace, reg: Registry, bus: bv8, from: bv8, lo: int, pos: seq<int>)
    requires |pos| == DevicesPerBus as int
  {
    forall d: bv8 :: from <= d < DevicesPerBus && Present(cs, bus, d) ==> EntryAt(cs, reg, bus, d, lo, pos[d])
  }

  /** Index `k`, at or after `lo`, holds the function-0 record of slot `d`. */
  ghost predicate EntryAt(cs: ConfigSpace, reg: Registry, bus: bv8, d: bv8, lo: int, k: int)
  {
    lo <= k < reg.numDevice && 0 <= k < |reg.devices| && reg.devices[k] == Entry(cs, bus, d, 0)
  }

  ghost predicate Ascending(cs: ConfigSpace, bus: bv8, from: bv8, pos: seq<int>)
    requires |pos| == DevicesPerBus as int
  {
    forall d1: bv8, d2: bv8 :: from <= d1 < d2 < DevicesPerBus && Present(cs, bus, d1) && Present(cs, bus, d2) ==>
      pos[d1] < pos[d2]
  }

  ghost predicate HeadAt(cs: ConfigSpace, bus: bv8, from: bv8, lo: int, pos: seq<int>)
    requires |pos| == DevicesPerBus as int
  {
    forall d: bv8 :: from <= d < DevicesPerBus && Present(cs, bus, d)
                     && (forall e: bv8 :: from <= e < d ==> !Present(cs, bus, e)) ==>
      pos[d] == lo
  }

  /** The bus behind a bridge record, as `ScanFunction` reads it. */
  function BridgeSecondary(cs: ConfigSpace, e: Device): bv8
  {
    SecondaryBus(ReadBusNumbers(cs, e.bus, e.device, e.func))
  }

  /** Every bridge record at an index in `[lo, hi)` is followed by a record
      for every present device of its secondary bus. */
  ghost predicate BridgesExpanded(cs: ConfigSpace, reg: Registry, lo: int, hi: int)
  {
    forall k :: lo <= k < hi && 0 <= k < |reg.devices| && IsPciBridge(reg.devices[k].classCode) ==>
      Covers(cs, reg, BridgeSecondary(cs, reg.devices[k]), 0, k + 1)
  }

  /** `ScanFunction`: register the function, then descend into the
      secondary bus if it is a PCI-to-PCI bridge. */
  function ScanFunction(cs: ConfigSpace, reg: Registry, bus: bv8, device: bv8, func: bv8): (r: Outcome)
    requires reg.Valid()
    ensures Extends(reg, r.value) && Settled(r)
    ensures reg.numDevice == Capacity ==> r == WithError(reg, MakeError(Full))
    ensures reg.numDevice < Capacity ==>
              reg.numDevice < r.value.numDevice && r.value.devices[reg.numDevice] == Entry(cs, bus, device, func)
    decreases Capacity - reg.numDevice, 0, 0
  {
    var added := AddDevice(cs, reg, bus, device, func, HeaderType(cs, bus, device, func));
    if Failed(added.error) then added
    else if IsPciBridge(ReadClassCode(cs, bus, device, func)) then
      var r := ScanBus(cs, added.value, SecondaryBus(ReadBusNumbers(cs, bus, device, func)));
      ExtendsTrans(reg, added.value, r.value);
      r
    else
      Succeed(added.value)
  }

  /** `ScanDevice`: scan function 0, then the other functions if the header
      type says the device has several. */
  function ScanDevice(cs: ConfigSpace, reg: Registry, bus: bv8, device: bv8): (r: Outcome)
    requires reg.Valid()
    ensures Extends(reg, r.value) && Settled(r)
    ensures reg.numDevice == Capacity ==> r == WithError(reg, MakeError(Full))
    ensures reg.numDevice < Capacity ==>
              reg.numDevice < r.value.numDevice && r.value.devices[reg.numDevice] == Entry(cs, bus, device, 0)
    decreases Capacity - reg.numDevice, 2, 0
  {
    var first := ScanFunction(cs, reg, bus, device, 0);
    if Failed(first.error) then first
    else
      var r := ScanRemainingFunctions(cs, first.value, bus, device, HeaderType(cs, bus, device, 0));
      ExtendsTrans(reg, first.value, r.value);
      r
  }

  /** The part of `ScanDevice` after function 0, for a given function-0
      header type: nothing for a single-function device, functions 1..7
      otherwise. */
  function ScanRemainingFunctions(cs: ConfigSpace, reg: Registry, bus: bv8, device: bv8, headerType: bv8)
    : (r: Outcome)
    requires reg.Valid()
    ensures Extends(reg, r.value) && Settled(r)
    ensures IsSingleFunctionDevice(headerType) ==> r == Succeed(reg)
    decreases Capacity - reg.numDevice, 1, FunctionsPerDevice
  {
    if IsSingleFunctionDevice(headerType) then Succeed(reg)
    else ScanFunctionsFrom(cs, reg, bus, device, 1)
  }

  /** The `for (function = 1; function < 8; ...)` loop of `ScanDevice`,
      from `func` on: absent functions are skipped, the first error ends it. */
  function ScanFunctionsFrom(cs: ConfigSpace, reg: Registry, bus: bv8, device: bv8, func: bv8): (r: Outcome)
    requires reg.Valid()
    requires 1 <= func <= FunctionsPerDevice
    ensures Extends(reg, r.value) && Settled(r)
    decreases Capacity - reg.numDevice, 1, FunctionsPerDevice - func
  {
    if func == FunctionsPerDevice then Succeed(reg)
    else if VendorId(cs, bus, device, func) == NoDevice then
      ScanFunctionsFrom(cs, reg, bus, device, func + 1)
    else
      var next := ScanFunction(cs, reg, bus, device, func);
      if Failed(next.error) then next
      else
        var r := ScanFunctionsFrom(cs, next.value, bus, device, func + 1);
        ExtendsTrans(reg, next.value, r.value);
        r
  }

  /** `ScanBus`: every device slot of one bus. */
  function ScanBus(cs: ConfigSpace, reg: Registry, bus: bv8): (r: Outcome)
    requires reg.Valid()
    ensures Extends(reg, r.value) && Settled(r)
    decreases Capacity - reg.numDevice, 4, 0
  {
    ScanBusFrom(cs, reg, bus, 0)
  }

  /** The `for (device = 0; device < 32; ...)` loop of `ScanBus`, from
      `device` on: a slot whose function 0 reports vendor 0xFFFF is empty. */
  function ScanBusFrom(cs: ConfigSpace, reg: Registry, bus: bv8, device: bv8): (r: Outcome)
    requires reg.Valid()
    requires device <= DevicesPerBus
    ensures Extends(reg, r.value) && Settled(r)
    decreases Capacity - reg.numDevice, 3, DevicesPerBus - device
  {
    if device == DevicesPerBus then Succeed(reg)
    else if VendorId(cs, bus, device, 0) == NoDevice then
      ScanBusFrom(cs, reg, bus, device + 1)
    else
      var next := ScanDevice(cs, reg, bus, device);
      if Failed(next.error) then next
      else
        var r := ScanBusFrom(cs, next.value, bus, device + 1);
        ExtendsTrans(reg, next.value, r.value);
        r
  }

  /** `ScanAllBus`: reset the count (not the storage) and scan from the
      host bridge at 0:0.0. Every record it leaves describes a present
      function 0 of some device, and on success every present device of
      bus 0 has a record; the storage past the final count is untouched. */
  function ScanAllBus(cs: ConfigSpace, reg: Registry): (r: Outcome)
    requires reg.Valid()
    ensures r.value.Valid() && Settled(r)
    ensures forall k :: r.value.numDevice <= k < Capacity ==> r.value.devices[k] == reg.devices[k]
    ensures AllFound(cs, r.value, 0, r.value.numDevice)
    ensures FunctionZeroOnly(r.value, 0, r.value.numDevice)
    ensures r.error.code == Success ==> Covers(cs, r.value, 0, 0, 0)
    ensures r.error.code == Success ==> BridgesExpanded(cs, r.value, 0, r.value.numDevice)
  {
    var reset := reg.(numDevice := 0);
    ScanBusSound(cs, reset, 0);
    ScanBusCovers(cs, reset, 0);
    ScanBusExpanded(cs, reset, 0);
    ScanHost(cs, reset, HeaderType(cs, 0, 0, 0))
  }

  /** The decision of `ScanAllBus` for a given host-bridge header type: a
      single-function host bridge means bus 0, otherwise each present host
      function is scanned as a bus of its own. */
  function ScanHost(cs: ConfigSpace, reg: Registry, headerType: bv8): (r: Outcome)
    requires reg.Valid()
    ensures Extends(reg, r.value) && Settled(r)
    ensures IsSingleFunctionDevice(headerType) ==> r == ScanBus(cs, reg, 0)
  {
    if IsSingleFunctionDevice(headerType) then ScanBus(cs, reg, 0)
    else HostFunctionsFrom(cs, reg, 1)
  }

  /** The multi-function loop of `ScanAllBus`; as written it starts at
      function 1, so it never passes bus 0 to `ScanBus` itself. */
  function HostFunctionsFrom(cs: ConfigSpace, reg: Registry, func: bv8): (r: Outcome)
    requires reg.Valid()
    requires 1 <= func <= FunctionsPerDevice
    ensures Extends(reg, r.value) && Settled(r)
    decreases FunctionsPerDevice - func
  {
    if func == FunctionsPerDevice then Succeed(reg)
    else if VendorId(cs, 0, 0, func) == NoDevice then
      HostFunctionsFrom(cs, reg, func + 1)
    else
      var next := ScanBus(cs, reg, func);
      if Failed(next.error) then next
      else
        var r := HostFunctionsFrom(cs, next.value, func + 1);
        ExtendsTrans(reg, next.value, r.value);
        r
  }

  // Soundness: every record a scan appends describes a present function,
  // as configuration space describes it. Proved by induction along the
  // same measure as the scan itself.

  lemma {:induction false} ScanFunctionSound(cs: ConfigSpace, reg: Registry, bus: bv8, device: bv8, func: bv8)
    requires reg.Valid()
    ensures var r := ScanFunction(cs, reg, bus, device, func);
            && AllFound(cs, r.value, reg.numDevice + 1, r.value.numDevice)
            && FunctionZeroOnly(r.value, reg.numDevice + 1, r.value.numDevice)
    decreases Capacity - reg.numDevice, 0, 0
  {
    var added := AddDevice(cs, reg, bus, device, func, HeaderType(cs, bus, device, func));
    if !Failed(added.error) && IsPciBridge(ReadClassCode(cs, bus, device, func)) {
      ScanBusSound(cs, added.value, SecondaryBus(ReadBusNumbers(cs, bus, device, func)));
    }
  }

  lemma {:induction false} ScanDeviceSound(cs: ConfigSpace, reg: Registry, bus: bv8, device: bv8)
    requires reg.Valid()
    ensures var r := ScanDevice(cs, reg, bus, device);
            && (device < DevicesPerBus && VendorId(cs, bus, device, 0) != NoDevice ==>
                  AllFound(cs, r.value, reg.numDevice, r.value.numDevice))
            && FunctionZeroOnly(r.value, reg.numDevice, r.value.numDevice)
    decreases Capacity - reg.numDevice, 2, 0
  {
    var first := ScanFunction(cs, reg, bus, device, 0);
    ScanFunctionSound(cs, reg, bus, device, 0);
    assert ScanDevice(cs, reg, bus, device) == first;
    if reg.numDevice < Capacity {
      if device < DevicesPerBus && VendorId(cs, bus, device, 0) != NoDevice {
        assert Found(cs, first.value.devices[reg.numDevice]);
      }
    }
  }

  lemma {:induction false} ScanRemainingFunctionsSound(cs: ConfigSpace, reg: Registry, bus: bv8, device: bv8,
                                                       headerType: bv8)
    requires reg.Valid()
    ensures var r := ScanRemainingFunctions(cs, reg, bus, device, headerType);
            device < DevicesPerBus ==> AllFound(cs, r.value, reg.numDevice, r.value.numDevice)
    decreases Capacity - reg.numDevice, 1, FunctionsPerDevice
  {
    if !IsSingleFunctionDevice(headerType) {
      ScanFunctionsFromSound(cs, reg, bus, device, 1);
    }
  }

  lemma {:induction false} ScanFunctionsFromSound(cs: ConfigSpace, reg: Registry, bus: bv8, device: bv8, func: bv8)
    requires reg.Valid()
    requires 1 <= func <= FunctionsPerDevice
    ensures var r := ScanFunctionsFrom(cs, reg, bus, device, func);
            device < DevicesPerBus ==> AllFound(cs, r.value, reg.numDevice, r.value.numDevice)
    decreases Capacity - reg.numDevice, 1, FunctionsPerDevice - func
  {
    if func < FunctionsPerDevice && device < DevicesPerBus {
      var f := func;
      if VendorId(cs, bus, device, f) == NoDevice {
        ScanFunctionsFromSound(cs, reg, bus, device, func + 1);
      } else {
        var next := ScanFunction(cs, reg, bus, device, f);
        ScanFunctionSound(cs, reg, bus, device, f);
        FirstEntryFound(cs, reg, next.value, bus, device, f);
        if !Failed(next.error) {
          var r := ScanFunctionsFrom(cs, next.value, bus, device, func + 1);
          assert ScanFunctionsFrom(cs, reg, bus, device, func) == r;
          ScanFunctionsFromSound(cs, next.value, bus, device, func + 1);
          AllFoundJoin(cs, next.value, r.value, reg.numDevice, next.value.numDevice, r.value.numDevice);
        } else {
          assert ScanFunctionsFrom(cs, reg, bus, device, func) == next;
        }
      }
    }
  }

  /** The record a scan starts with describes a present function. */
  lemma FirstEntryFound(cs: ConfigSpace, reg: Registry, next: Registry, bus: bv8, device: bv8, func: bv8)
    requires Extends(reg, next)
    requires device < DevicesPerBus && func < FunctionsPerDevice
    requires VendorId(cs, bus, device, func) != NoDevice
    requires reg.numDevice == Capacity ==> next.numDevice == reg.numDevice
    requires reg.numDevice < Capacity ==>
               reg.numDevice < next.numDevice && next.devices[reg.numDevice] == Entry(cs, bus, device, func)
    requires AllFound(cs, next, reg.numDevice + 1, next.numDevice)
    ensures AllFound(cs, next, reg.numDevice, next.numDevice)
  {
    if reg.numDevice < Capacity {
      assert Found(cs, next.devices[reg.numDevice]);
    }
  }

  lemma {:induction false} ScanBusSound(cs: ConfigSpace, reg: Registry, bus: bv8)
    requires reg.Valid()
    ensures var r := ScanBus(cs, reg, bus);
            && AllFound(cs, r.value, reg.numDevice, r.value.numDevice)
            && FunctionZeroOnly(r.value, reg.numDevice, r.value.numDevice)
    decreases Capacity - reg.numDevice, 4, 0
  {
    ScanBusFromSound(cs, reg, bus, 0);
  }

  lemma {:induction false} ScanBusFromSound(cs: ConfigSpace, reg: Registry, bus: bv8, device: bv8)
    requires reg.Valid()
    requires device <= DevicesPerBus
    ensures var r := ScanBusFrom(cs, reg, bus, device);
            && AllFound(cs, r.value, reg.numDevice, r.value.numDevice)
            && FunctionZeroOnly(r.value, reg.numDevice, r.value.numDevice)
    decreases Capacity - reg.numDevice, 3, DevicesPerBus - device
  {
    if device < DevicesPerBus {
      if VendorId(cs, bus, device, 0) == NoDevice {
        ScanBusFromSound(cs, reg, bus, device + 1);
      } else {
        var next := ScanDevice(cs, reg, bus, device);
        ScanDeviceSound(cs, reg, bus, device);
        if !Failed(next.error) {
          var r := ScanBusFrom(cs, next.value, bus, device + 1);
          assert ScanBusFrom(cs, reg, bus, device) == r;
          ScanBusFromSound(cs, next.value, bus, device + 1);
          AllFoundJoin(cs, next.value, r.value, reg.numDevice, next.value.numDevice, r.value.numDevice);
          FunctionZeroJoin(next.value, r.value, reg.numDevice, next.value.numDevice, r.value.numDevice);
        } else {
          assert ScanBusFrom(cs, reg, bus, device) == next;
        }
      }
    }
  }

  /** The multi-function host path is sound as well, though as written it
      is never taken. */
  lemma {:induction false} ScanHostSound(cs: ConfigSpace, reg: Registry, headerType: bv8)
    requires reg.Valid()
    ensures var r := ScanHost(cs, reg, headerType);
            AllFound(cs, r.value, reg.numDevice, r.value.numDevice)
  {
    if IsSingleFunctionDevice(headerType) {
      ScanBusSound(cs, reg, 0);
    } else {
      HostFunctionsFromSound(cs, reg, 1);
    }
  }

  lemma {:induction false} HostFunctionsFromSound(cs: ConfigSpace, reg: Registry, func: bv8)
    requires reg.Valid()
    requires 1 <= func <= FunctionsPerDevice
    ensures var r := HostFunctionsFrom(cs, reg, func);
            AllFound(cs, r.value, reg.numDevice, r.value.numDevice)
    decreases FunctionsPerDevice - func
  {
    if func < FunctionsPerDevice {
      if VendorId(cs, 0, 0, func) == NoDevice {
        HostFunctionsFromSound(cs, reg, func + 1);
      } else {
        var next := ScanBus(cs, reg, func);
        ScanBusSound(cs, reg, func);
        if !Failed(next.error) {
          var r := HostFunctionsFrom(cs, next.value, func + 1);
          HostFunctionsFromSound(cs, next.value, func + 1);
          AllFoundJoin(cs, next.value, r.value, reg.numDevice, next.value.numDevice, r.value.numDevice);
        }
      }
    }
  }

  // Completeness: a scan that succeeds leaves a record for every present
  // device of the bus it scanned.

  lemma {:induction false} ScanBusCovers(cs: ConfigSpace, reg: Registry, bus: bv8)
    requires reg.Valid()
    ensures var r := ScanBus(cs, reg, bus);
            r.error.code == Success ==> Covers(cs, r.value, bus, 0, reg.numDevice)
  {
    ScanBusFromCovers(cs, reg, bus, 0);
  }

  lemma {:induction false} ScanBusFromCovers(cs: ConfigSpace, reg: Registry, bus: bv8, device: bv8)
    requires reg.Valid()
    requires device <= DevicesPerBus
    ensures var r := ScanBusFrom(cs, reg, bus, device);
            r.error.code == Success ==> Covers(cs, r.value, bus, device, reg.numDevice)
    decreases DevicesPerBus - device
  {
    if device < DevicesPerBus {
      if VendorId(cs, bus, device, 0) == NoDevice {
        var r := ScanBusFrom(cs, reg, bus, device + 1);
        ScanBusFromCovers(cs, reg, bus, device + 1);
        CoversSkip(cs, r.value, bus, device, reg.numDevice, r.error.code == Success);
      } else {
        var next := ScanDevice(cs, reg, bus, device);
        if !Failed(next.error) {
          var r := ScanBusFrom(cs, next.value, bus, device + 1);
          ScanBusFromCovers(cs, next.value, bus, device + 1);
          CoversStep(cs, reg, next.value, r.value, bus, device, r.error.code == Success);
        }
      }
    }
  }

  // Order: a bus scan registers the function-0 records of the present slots
  // at ascending indices in slot order, the first present slot's record
  // first.

  lemma ScanBusOrder(cs: ConfigSpace, reg: Registry, bus: bv8) returns (pos: seq<int>)
    requires reg.Valid()
    ensures |pos| == DevicesPerBus as int
    ensures var r := ScanBus(cs, reg, bus);
            r.error.code == Success ==> InSlotOrder(cs, r.value, bus, 0, reg.numDevice, pos)
  {
    pos := ScanBusFromOrder(cs, reg, bus, 0);
  }

  lemma {:induction false} ScanBusFromOrder(cs: ConfigSpace, reg: Registry, bus: bv8, device: bv8)
    returns (pos: seq<int>)
    requires reg.Valid()
    requires device <= DevicesPerBus
    ensures |pos| == DevicesPerBus as int
    ensures var r := ScanBusFrom(cs, reg, bus, device);
            r.error.code == Success ==> InSlotOrder(cs, r.value, bus, device, reg.numDevice, pos)
    decreases DevicesPerBus - device
  {
    if device == DevicesPerBus {
      pos := seq(DevicesPerBus as int, _ => 0);
    } else if !Present(cs, bus, device) {
      var r := ScanBusFrom(cs, reg, bus, device + 1);
      pos := ScanBusFromOrder(cs, reg, bus, device + 1);
      if r.error.code == Success {
        OrderSkip(cs, r.value, bus, device, reg.numDevice, pos);
      }
    } else {
      var next := ScanDevice(cs, reg, bus, device);
      if Failed(next.error) {
        pos := seq(DevicesPerBus as int, _ => 0);
      } else {
        var r := ScanBusFrom(cs, next.value, bus, device + 1);
        assert ScanBusFrom(cs, reg, bus, device) == r;
        var rest := ScanBusFromOrder(cs, next.value, bus, device + 1);
        pos := rest[device := reg.numDevice];
        if r.error.code == Success {
          OrderStep(cs, reg, next.value, r.value, bus, device, rest);
        }
      }
    }
  }

  /** An empty slot adds nothing to the order. */
  lemma OrderSkip(cs: ConfigSpace, reg: Registry, bus: bv8, device: bv8, lo: int, pos: seq<int>)
    requires device < DevicesPerBus
    requires !Present(cs, bus, device)
    requires InSlotOrder(cs, reg, bus, device + 1, lo, pos)
    ensures InSlotOrder(cs, reg, bus, device, lo, pos)
  {
    forall d: bv8 | device <= d < DevicesPerBus && Present(cs, bus, d)
                    && (forall e: bv8 :: device <= e < d ==> !Present(cs, bus, e))
      ensures pos[d] == lo
    {
      assert forall e: bv8 :: device + 1 <= e < d ==> !Present(cs, bus, e);
    }
  }

  /** A scanned slot's record goes in front of the order of the slots after it. */
  lemma OrderStep(cs: ConfigSpace, reg: Registry, next: Registry, last: Registry, bus: bv8, device: bv8,
                  rest: seq<int>)
    requires device < DevicesPerBus
    requires Present(cs, bus, device)
    requires reg.Valid() && Extends(next, last)
    requires reg.numDevice < next.numDevice
    requires next.devices[reg.numDevice] == Entry(cs, bus, device, 0)
    requires InSlotOrder(cs, last, bus, device + 1, next.numDevice, rest)
    ensures InSlotOrder(cs, last, bus, device, reg.numDevice, rest[device := reg.numDevice])
  {
    assert last.devices[reg.numDevice] == next.devices[reg.numDevice];
    EntriesStep(cs, reg, next, last, bus, device, rest);
    AscendingStep(cs, bus, device, rest, reg.numDevice, next.numDevice);
    HeadStep(cs, bus, device, rest, reg.numDevice);
  }

  lemma EntriesStep(cs: ConfigSpace, reg: Registry, next: Registry, last: Registry, bus: bv8, device: bv8,
                    rest: seq<int>)
    requires device < DevicesPerBus && |rest| == DevicesPerBus as int
    requires 0 <= reg.numDevice < next.numDevice <= last.numDevice <= |last.devices|
    requires last.devices[reg.numDevice] == Entry(cs, bus, device, 0)
    requires SlotEntries(cs, last, bus, device + 1, next.numDevice, rest)
    ensures SlotEntries(cs, last, bus, device, reg.numDevice, rest[device := reg.numDevice])
  {
    var pos := rest[device := reg.numDevice];
    forall d: bv8 | device <= d < DevicesPerBus && Present(cs, bus, d)
      ensures EntryAt(cs, last, bus, d, reg.numDevice, pos[d])
    {
      if d != device {
        assert pos[d] == rest[d];
        assert EntryAt(cs, last, bus, d, next.numDevice, rest[d]);
      }
    }
  }

  lemma AscendingStep(cs: ConfigSpace, bus: bv8, device: bv8, rest: seq<int>, lo: int, hi: int)
    requires device < DevicesPerBus && |rest| == DevicesPerBus as int
    requires lo < hi
    requires forall d: bv8 :: device < d < DevicesPerBus && Present(cs, bus, d) ==> hi <= rest[d]
    requires Ascending(cs, bus, device + 1, rest)
    ensures Ascending(cs, bus, device, rest[device := lo])
  {
    var pos := rest[device := lo];
    forall d1: bv8, d2: bv8 | device <= d1 < d2 < DevicesPerBus && Present(cs, bus, d1) && Present(cs, bus, d2)
      ensures pos[d1] < pos[d2]
    {
      assert pos[d2] == rest[d2];
      if d1 != device {
        assert pos[d1] == rest[d1];
      }
    }
  }

  lemma HeadStep(cs: ConfigSpace, bus: bv8, device: bv8, rest: seq<int>, lo: int)
    requires device < DevicesPerBus && |rest| == DevicesPerBus as int
    requires Present(cs, bus, device)
    ensures HeadAt(cs, bus, device, lo, rest[device := lo])
  {
    var pos := rest[device := lo];
    forall d: bv8 | device <= d < DevicesPerBus && Present(cs, bus, d)
                    && (forall e: bv8 :: device <= e < d ==> !Present(cs, bus, e))
      ensures pos[d] == lo
    {
    }
  }

  /** `ScanAllBus` registers the present slots of bus 0 in ascending order. */
  lemma ScanAllBusOrder(cs: ConfigSpace, reg: Registry) returns (pos: seq<int>)
    requires reg.Valid()
    ensures |pos| == DevicesPerBus as int
    ensures var r := ScanAllBus(cs, reg);
            r.error.code == Success ==> InSlotOrder(cs, r.value, 0, 0, 0, pos)
  {
    pos := ScanBusOrder(cs, reg.(numDevice := 0), 0);
  }

  /** Starting from the zeroed static registry, the storage past the final
      count is still zeroed after `ScanAllBus`. */
  lemma ScanAllBusFromInitial(cs: ConfigSpace)
    ensures var r := ScanAllBus(cs, InitialRegistry());
            forall k :: r.value.numDevice <= k < Capacity ==> r.value.devices[k] == ZeroDevice
  {
  }

  // Bridges: on success, every bridge record in the registry is followed by
  // records for all present devices of its secondary bus. Proved along the
  // scan measure, like soundness.

  lemma {:induction false} ScanFunctionExpanded(cs: ConfigSpace, reg: Registry, bus: bv8, device: bv8, func: bv8)
    requires reg.Valid()
    ensures var r := ScanFunction(cs, reg, bus, device, func);
            r.error.code == Success ==> BridgesExpanded(cs, r.value, reg.numDevice, r.value.numDevice)
    decreases Capacity - reg.numDevice, 0, 0
  {
    var added := AddDevice(cs, reg, bus, device, func, HeaderType(cs, bus, device, func));
    if !Failed(added.error) {
      var r := ScanFunction(cs, reg, bus, device, func);
      var e := Entry(cs, bus, device, func);
      assert r.value.devices[reg.numDevice] == e;
      if IsPciBridge(ReadClassCode(cs, bus, device, func)) {
        var sec := SecondaryBus(ReadBusNumbers(cs, bus, device, func));
        assert r == ScanBus(cs, added.value, sec);
        ScanBusExpanded(cs, added.value, sec);
        ScanBusCovers(cs, added.value, sec);
        assert BridgeSecondary(cs, e) == sec;
      } else {
        assert r == Succeed(added.value);
      }
    }
  }

  lemma {:induction false} ScanDeviceExpanded(cs: ConfigSpace, reg: Registry, bus: bv8, device: bv8)
    requires reg.Valid()
    ensures var r := ScanDevice(cs, reg, bus, device);
            r.error.code == Success ==> BridgesExpanded(cs, r.value, reg.numDevice, r.value.numDevice)
    decreases Capacity - reg.numDevice, 2, 0
  {
    ScanFunctionExpanded(cs, reg, bus, device, 0);
    assert ScanDevice(cs, reg, bus, device) == ScanFunction(cs, reg, bus, device, 0);
  }

  lemma {:induction false} ScanBusExpanded(cs: ConfigSpace, reg: Registry, bus: bv8)
    requires reg.Valid()
    ensures var r := ScanBus(cs, reg, bus);
            r.error.code == Success ==> BridgesExpanded(cs, r.value, reg.numDevice, r.value.numDevice)
    decreases Capacity - reg.numDevice, 4, 0
  {
    ScanBusFromExpanded(cs, reg, bus, 0);
  }

  lemma {:induction false} ScanBusFromExpanded(cs: ConfigSpace, reg: Registry, bus: bv8, device: bv8)
    requires reg.Valid()
    requires device <= DevicesPerBus
    ensures var r := ScanBusFrom(cs, reg, bus, device);
            r.error.code == Success ==> BridgesExpanded(cs, r.value, reg.numDevice, r.value.numDevice)
    decreases Capacity - reg.numDevice, 3, DevicesPerBus - device
  {
    if device < DevicesPerBus {
      if VendorId(cs, bus, device, 0) == NoDevice {
        ScanBusFromExpanded(cs, reg, bus, device + 1);
      } else {
        var next := ScanDevice(cs, reg, bus, device);
        if !Failed(next.error) {
          var r := ScanBusFrom(cs, next.value, bus, device + 1);
          assert ScanBusFrom(cs, reg, bus, device) == r;
          ScanDeviceExpanded(cs, reg, bus, device);
          ScanBusFromExpanded(cs, next.value, bus, device + 1);
          if r.error.code == Success {
            ExpandedJoin(cs, next.value, r.value, reg.numDevice, next.value.numDevice, r.value.numDevice);
          }
        }
      }
    }
  }

  /** The multi-function path of `ScanDevice` keeps bridges expanded too. */
  lemma {:induction false} ScanRemainingFunctionsExpanded(cs: ConfigSpace, reg: Registry, bus: bv8, device: bv8,
                                                          headerType: bv8)
    requires reg.Valid()
    ensures var r := ScanRemainingFunctions(cs, reg, bus, device, headerType);
            r.error.code == Success ==> BridgesExpanded(cs, r.value, reg.numDevice, r.value.numDevice)
  {
    if !IsSingleFunctionDevice(headerType) {
      ScanFunctionsFromExpanded(cs, reg, bus, device, 1);
    }
  }

  lemma {:induction false} ScanFunctionsFromExpanded(cs: ConfigSpace, reg: Registry, bus: bv8, device: bv8,
                                                     func: bv8)
    requires reg.Valid()
    requires 1 <= func <= FunctionsPerDevice
    ensures var r := ScanFunctionsFrom(cs, reg, bus, device, func);
            r.error.code == Success ==> BridgesExpanded(cs, r.value, reg.numDevice, r.value.numDevice)
    decreases Capacity - reg.numDevice, FunctionsPerDevice - func
  {
    if func < FunctionsPerDevice {
      if VendorId(cs, bus, device, func) == NoDevice {
        ScanFunctionsFromExpanded(cs, reg, bus, device, func + 1);
      } else {
        var next := ScanFunction(cs, reg, bus, device, func);
        if !Failed(next.error) {
          var r := ScanFunctionsFrom(cs, next.value, bus, device, func + 1);
          assert ScanFunctionsFrom(cs, reg, bus, device, func) == r;
          ScanFunctionExpanded(cs, reg, bus, device, func);
          ScanFunctionsFromExpanded(cs, next.value, bus, device, func + 1);
          if r.error.code == Success {
            ExpandedJoin(cs, next.value, r.value, reg.numDevice, next.value.numDevice, r.value.numDevice);
          }
        }
      }
    }
  }

  /** Coverage survives appending. */
  lemma CoversExtends(cs: ConfigSpace, a: Registry, b: Registry, bus: bv8, from: bv8, lo: int)
    requires Extends(a, b)
    requires Covers(cs, a, bus, from, lo)
    ensures Covers(cs, b, bus, from, lo)
  {
    forall d: bv8 | from <= d < DevicesPerBus && VendorId(cs, bus, d, 0) != NoDevice
      ensures exists k :: lo <= k < b.numDevice && 0 <= k < |b.devices|
                  && b.devices[k].bus == bus && b.devices[k].device == d && b.devices[k].func == 0
    {
      var k :| lo <= k < a.numDevice && 0 <= k < |a.devices|
               && a.devices[k].bus == bus && a.devices[k].device == d && a.devices[k].func == 0;
      assert b.devices[k] == a.devices[k];
    }
  }

  lemma ExpandedJoin(cs: ConfigSpace, mid: Registry, last: Registry, lo: int, m: int, hi: int)
    requires Extends(mid, last)
    requires m <= mid.numDevice
    requires BridgesExpanded(cs, mid, lo, m) && BridgesExpanded(cs, last, m, hi)
    ensures BridgesExpanded(cs, last, lo, hi)
  {
    forall k | lo <= k < hi && 0 <= k < |last.devices| && IsPciBridge(last.devices[k].classCode)
      ensures Covers(cs, last, BridgeSecondary(cs, last.devices[k]), 0, k + 1)
    {
      if k < m {
        assert last.devices[k] == mid.devices[k];
        CoversExtends(cs, mid, last, BridgeSecondary(cs, mid.devices[k]), 0, k + 1);
      }
    }
  }

  /** A bridge is registered before its secondary bus, and when the scan
      succeeds every present device of that bus follows it. */
  lemma BridgeSubtreeFollowsBridge(cs: ConfigSpace, reg: Registry, bus: bv8, device: bv8, func: bv8)
    requires reg.Valid()
    requires IsPciBridge(ReadClassCode(cs, bus, device, func))
    ensures var r := ScanFunction(cs, reg, bus, device, func);
            r.error.code == Success ==>
              && r.value.devices[reg.numDevice] == Entry(cs, bus, device, func)
              && Covers(cs, r.value, SecondaryBus(ReadBusNumbers(cs, bus, device, func)), 0, reg.numDevice + 1)
  {
    var added := AddDevice(cs, reg, bus, device, func, HeaderType(cs, bus, device, func));
    if !Failed(added.error) {
      ScanBusCovers(cs, added.value, SecondaryBus(ReadBusNumbers(cs, bus, device, func)));
    }
  }

  lemma ExtendsTrans(a: Registry, b: Registry, c: Registry)
    requires Extends(a, b) && Extends(b, c)
    ensures Extends(a, c)
  {
  }

  lemma AllFoundJoin(cs: ConfigSpace, mid: Registry, last: Registry, lo: int, m: int, hi: int)
    requires Extends(mid, last)
    requires m <= mid.numDevice
    requires AllFound(cs, mid, lo, m) && AllFound(cs, last, m, hi)
    ensures AllFound(cs, last, lo, hi)
  {
    forall k | lo <= k < hi && 0 <= k < |last.devices|
      ensures Found(cs, last.devices[k])
    {
      if k < m {
        assert last.devices[k] == mid.devices[k];
      }
    }
  }

  lemma FunctionZeroJoin(mid: Registry, last: Registry, lo: int, m: int, hi: int)
    requires Extends(mid, last)
    requires m <= mid.numDevice
    requires FunctionZeroOnly(mid, lo, m) && FunctionZeroOnly(last, m, hi)
    ensures FunctionZeroOnly(last, lo, hi)
  {
    forall k | lo <= k < hi && 0 <= k < |last.devices|
      ensures last.devices[k].func == 0
    {
      if k < m {
        assert last.devices[k] == mid.devices[k];
      }
    }
  }

  /** An empty slot adds nothing to cover. */
  lemma CoversSkip(cs: ConfigSpace, reg: Registry, bus: bv8, device: bv8, lo: int, success: bool)
    requires device < DevicesPerBus
    requires VendorId(cs, bus, device, 0) == NoDevice
    requires success ==> Covers(cs, reg, bus, device + 1, lo)
    ensures success ==> Covers(cs, reg, bus, device, lo)
  {
    if !success { return; }
    forall d: bv8 | device <= d < DevicesPerBus && VendorId(cs, bus, d, 0) != NoDevice
      ensures exists k :: lo <= k < reg.numDevice && 0 <= k < |reg.devices|
                  && reg.devices[k].bus == bus && reg.devices[k].device == d && reg.devices[k].func == 0
    {
      assert d != device;
    }
  }

  /** A scanned slot is covered by the record at the position its scan
      started from, which later appends keep in place. */
  lemma CoversStep(cs: ConfigSpace, reg: Registry, next: Registry, last: Registry, bus: bv8, device: bv8,
                   success: bool)
    requires device < DevicesPerBus
    requires reg.Valid() && Extends(next, last)
    requires reg.numDevice < next.numDevice
    requires next.devices[reg.numDevice] == Entry(cs, bus, device, 0)
    requires success ==> Covers(cs, last, bus, device + 1, next.numDevice)
    ensures success ==> Covers(cs, last, bus, device, reg.numDevice)
  {
    if !success { return; }
    forall d: bv8 | device <= d < DevicesPerBus && VendorId(cs, bus, d, 0) != NoDevice
      ensures exists k :: reg.numDevice <= k < last.numDevice && 0 <= k < |last.devices|
                  && last.devices[k].bus == bus && last.devices[k].device == d && last.devices[k].func == 0
    {
      if d == device {
        assert last.devices[reg.numDevice] == next.devices[reg.numDevice];
      }
    }
  }

  // Consequences of the header-type decoding, which reports 0 for every
  // function.

  /** `ScanDevice` never probes functions 1..7. */
  lemma ScanDeviceScansOnlyFunctionZero(cs: ConfigSpace, reg: Registry, bus: bv8, device: bv8)
    requires reg.Valid()
    ensures ScanDevice(cs, reg, bus, device) == ScanFunction(cs, reg, bus, device, 0)
  {
  }

  /** `ScanAllBus` always takes the single-function path: it scans bus 0
      from an emptied count. */
  lemma ScanAllBusScansBusZero(cs: ConfigSpace, reg: Registry)
    requires reg.Valid()
    ensures ScanAllBus(cs, reg) == ScanBus(cs, reg.(numDevice := 0), 0)
  {
  }

  /** The multi-function host loop starts at function 1: if functions
      1..7 of 0:0 are absent it scans nothing, whatever bus 0 holds. */
  lemma {:induction false} HostLoopSkipsFunctionZero(cs: ConfigSpace, reg: Registry, func: bv8)
    requires reg.Valid()
    requires 1 <= func <= FunctionsPerDevice
    requires forall f: bv8 :: func <= f < FunctionsPerDevice ==> VendorId(cs, 0, 0, f) == NoDevice
    ensures HostFunctionsFrom(cs, reg, func) == Succeed(reg)
    decreases FunctionsPerDevice - func
  {
    if func < FunctionsPerDevice {
      HostLoopSkipsFunctionZero(cs, reg, func + 1);
    }
  }
}
