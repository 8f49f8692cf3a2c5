/** Configuration-space decoding (kernel/pci.cpp, kernel/pci.hpp).

    The port I/O pair "write the address word to CONFIG_ADDRESS, read
    CONFIG_DATA" is modelled as one pure function from the address word to
    the dword the data port returns. Keying it by the word, not by the
    (bus, device, function, offset) tuple, keeps the address layout's
    collisions visible to every reader built on top of it. */
module PciConfig {
  import opened Errors
  import opened PciAddress

  /** What CONFIG_DATA returns after CONFIG_ADDRESS was written with a word. */
  type ConfigSpace = bv32 -> bv32

  /** The vendor ID hardware reports for an absent function. */
  const NoDevice: bv16 := 0xFFFF

  /** Class code triple (base class, sub class, programming interface). */
  datatype ClassCode = ClassCode(base: bv8, sub: bv8, interface: bv8)

  /** A registry entry. kernel/pci.hpp omits `class_code`, but
      kernel/pci.cpp stores it, and the model follows the .cpp file. */
  datatype Device = Device(bus: bv8, device: bv8, func: bv8, headerType: bv8, classCode: ClassCode)

  /** `ClassCode::Match(base, sub)`. */
  predicate MatchBaseSub(cc: ClassCode, base: bv8, sub: bv8): (m: bool)
    ensures m <==> cc == ClassCode(base, sub, cc.interface)
  {
    cc.base == base && cc.sub == sub
  }

  /** `ClassCode::Match(base, sub, interface)`. */
  predicate MatchFull(cc: ClassCode, base: bv8, sub: bv8, interface: bv8): (m: bool)
    ensures m <==> cc == ClassCode(base, sub, interface)
  {
    cc.base == base && cc.sub == sub && cc.interface == interface
  }

  /** A standard PCI-to-PCI bridge has class 0x06, sub class 0x04. */
  predicate IsPciBridge(cc: ClassCode): (b: bool)
    ensures b <==> cc.base == 0x06 && cc.sub == 0x04
  {
    MatchBaseSub(cc, 0x06, 0x04)
  }

  /** One configuration read: write the address word, read the data port.
      For function 0 this is the register the standard layout names; a
      function-1 read of a register below 0x80 lands on function 0's
      register with bit 7 of the offset set. */
  function ReadWord(cs: ConfigSpace, bus: bv8, device: bv8, func: bv8, offset: bv8): (w: bv32)
    ensures device < 32 && func == 0 ==> w == cs(StandardAddress(bus, device, 0, offset))
    ensures func == 1 && offset < 0x80 ==> w == cs(GenerateAddress(bus, device, 0, offset | 0x80))
  {
    if device < 32 && func == 0 then
      GenerateAddressIsStandardIff(bus, device, func, offset);
      cs(GenerateAddress(bus, device, func, offset))
    else if func == 1 && offset < 0x80 then
      FunctionAliasesHighOffset(bus, device, offset);
      cs(GenerateAddress(bus, device, func, offset))
    else
      cs(GenerateAddress(bus, device, func, offset))
  }

  /** `ReadVendorId`: the low half of dword 0x00. */
  function VendorId(cs: ConfigSpace, bus: bv8, device: bv8, func: bv8): (v: bv16)
    ensures var w := ReadWord(cs, bus, device, func, 0x00);
            (w & 0xFFFF_0000) | (v as bv32) == w
  {
    (ReadWord(cs, bus, device, func, 0x00) & 0xFFFF) as bv16
  }

  /** `ReadDeviceId`: the high half of dword 0x00. */
  function DeviceId(cs: ConfigSpace, bus: bv8, device: bv8, func: bv8): (v: bv16)
    ensures var w := ReadWord(cs, bus, device, func, 0x00);
            ((v as bv32) << 16) | (w & 0xFFFF) == w
  {
    (ReadWord(cs, bus, device, func, 0x00) >> 16) as bv16
  }

  /** `ReadHeaderType` as written: `(ret & 0x0f00) >> 16` keeps nothing,
      so the header type it reports is 0 whatever the hardware holds. */
  function HeaderType(cs: ConfigSpace, bus: bv8, device: bv8, func: bv8): (h: bv8)
    ensures h == 0
  {
    ((ReadWord(cs, bus, device, func, 0x0C) & 0x0F00) >> 16) as bv8
  }

  /** The header-type byte where the standard puts it: bits 23:16 of dword 0x0C. */
  function StandardHeaderType(cs: ConfigSpace, bus: bv8, device: bv8, func: bv8): bv8
  {
    ((ReadWord(cs, bus, device, func, 0x0C) >> 16) & 0xFF) as bv8
  }

  /** `ReadClassCode`: base, sub and interface are bytes 3, 2 and 1 of dword 0x08. */
  function ReadClassCode(cs: ConfigSpace, bus: bv8, device: bv8, func: bv8): (cc: ClassCode)
    ensures var w := ReadWord(cs, bus, device, func, 0x08);
            ((cc.base as bv32) << 24) | ((cc.sub as bv32) << 16) | ((cc.interface as bv32) << 8) | (w & 0xFF) == w
  {
    var w := ReadWord(cs, bus, device, func, 0x08);
    ClassCode(((w >> 24) & 0xFF) as bv8, ((w >> 16) & 0xFF) as bv8, ((w >> 8) & 0xFF) as bv8)
  }

  /** `ReadBusNumbers`: dword 0x18 of a type-1 header, undecoded. */
  function ReadBusNumbers(cs: ConfigSpace, bus: bv8, device: bv8, func: bv8): (b: bv32)
    ensures device < 32 && func == 0 ==> b == cs(StandardAddress(bus, device, 0, 0x18))
  {
    ReadWord(cs, bus, device, func, 0x18)
  }

  /** The secondary bus number, bits 15:8 of the bus-numbers dword. */
  function SecondaryBus(busNumbers: bv32): (s: bv8)
    ensures ((s as bv32) << 8) | (busNumbers & 0xFFFF_00FF) == busNumbers
  {
    ((busNumbers >> 8) & 0xFF) as bv8
  }

  /** `IsSingleFunctionDevice`: bit 7 of the header type is clear. */
  predicate IsSingleFunctionDevice(headerType: bv8): (single: bool)
    ensures single <==> headerType < 0x80
  {
    headerType & 0x80 == 0
  }

  /** `ReadConfReg`: read a register of an already-registered device. For
      a function-0 record this reads the register the standard layout
      names; a function-1 record below offset 0x80 reads function 0's
      register at the offset with bit 7 set. */
  function ReadConfReg(cs: ConfigSpace, dev: Device, offset: bv8): (w: bv32)
    ensures dev.device < 32 && dev.func == 0 ==> w == cs(StandardAddress(dev.bus, dev.device, 0, offset))
    ensures dev.func == 1 && offset < 0x80 ==> w == cs(GenerateAddress(dev.bus, dev.device, 0, offset | 0x80))
  {
    ReadWord(cs, dev.bus, dev.device, dev.func, offset)
  }

  const BarCount: nat := 6

  /** Offset of BAR `index` in a type-0 header. kernel/pci.cpp calls
      `CalcBarAddress` but neither kernel/pci.cpp nor kernel/pci.hpp defines
      it; this is the type-0 header layout it is assumed to follow. */
  function CalcBarAddress(index: nat): (offset: bv8)
    requires index < BarCount
    ensures offset as int == 0x10 + 4 * index
  {
    [0x10, 0x14, 0x18, 0x1C, 0x20, 0x24][index]
  }

  /** Low and high dwords of a 64-bit value. */
  function Low32(v: bv64): bv32
  {
    (v & 0xFFFF_FFFF) as bv32
  }

  function High32(v: bv64): bv32
  {
    (v >> 32) as bv32
  }

  /** `bar | (static_cast<uint64_t>(bar_upper) << 32)`. */
  function Combine(low: bv32, high: bv32): (v: bv64)
    ensures Low32(v) == low && High32(v) == high
  {
    (low as bv64) | ((high as bv64) << 32)
  }

  /** `ReadBar`: a BAR is 64-bit when bit 2 of its low dword is set. */
  function ReadBar(cs: ConfigSpace, dev: Device, index: nat): (r: WithError<bv64>)
    ensures index >= BarCount ==> r == WithError(0, MakeError(IndexOutOfRange))
    ensures index < BarCount ==>
              var low := ReadConfReg(cs, dev, CalcBarAddress(index));
              if low & 4 == 0 then
                r.error.code == Success && Low32(r.value) == low && High32(r.value) == 0
              else if index == BarCount - 1 then
                r == WithError(0, MakeError(IndexOutOfRange))
              else
                && r.error.code == Success
                && Low32(r.value) == low
                && High32(r.value) == ReadConfReg(cs, dev, CalcBarAddress(index) + 4)
  {
    if index >= BarCount then WithError(0, MakeError(IndexOutOfRange))
    else
      var offset := CalcBarAddress(index);
      var bar := ReadConfReg(cs, dev, offset);
      if bar & 4 == 0 then WithError(bar as bv64, MakeError(Success))
      else if index >= 5 then WithError(0, MakeError(IndexOutOfRange))
      else
        var upper := ReadConfReg(cs, dev, offset + 4);
        WithError(Combine(bar, upper), MakeError(Success))
  }

  /** The three-field match implies the two-field one. */
  lemma MatchFullImpliesBaseSub(cc: ClassCode, base: bv8, sub: bv8, interface: bv8)
    ensures MatchFull(cc, base, sub, interface) ==> MatchBaseSub(cc, base, sub)
  {
  }

  /** The two-field match does not look at the programming interface. */
  lemma MatchBaseSubIgnoresInterface(cc: ClassCode, base: bv8, sub: bv8, interface: bv8)
    ensures MatchBaseSub(cc.(interface := interface), base, sub) == MatchBaseSub(cc, base, sub)
  {
  }

  /** Device ID and vendor ID are the two halves of dword 0x00. */
  lemma IdsSplitDwordZero(cs: ConfigSpace, bus: bv8, device: bv8, func: bv8)
    ensures ((DeviceId(cs, bus, device, func) as bv32) << 16) | (VendorId(cs, bus, device, func) as bv32)
            == ReadWord(cs, bus, device, func, 0x00)
  {
  }

  /** Class code and revision ID are the four bytes of dword 0x08. */
  lemma ClassCodeSplitsDwordEight(cs: ConfigSpace, bus: bv8, device: bv8, func: bv8)
    ensures var cc := ReadClassCode(cs, bus, device, func);
            var w := ReadWord(cs, bus, device, func, 0x08);
            ((cc.base as bv32) << 24) | ((cc.sub as bv32) << 16) | ((cc.interface as bv32) << 8) | (w & 0xFF) == w
  {
  }

  /** The secondary bus is read back from a bus-numbers dword laid out as
      primary, secondary, subordinate, latency timer. */
  lemma SecondaryBusOfLayout(primary: bv8, secondary: bv8, subordinate: bv8, latency: bv8)
    ensures SecondaryBus((primary as bv32) | ((secondary as bv32) << 8)
                         | ((subordinate as bv32) << 16) | ((latency as bv32) << 24)) == secondary
  {
  }

  /** Because of the header-type decoding, every device looks single-function,
      even one whose standard header type has the multi-function bit set. */
  lemma EveryDeviceLooksSingleFunction(cs: ConfigSpace, bus: bv8, device: bv8, func: bv8)
    ensures IsSingleFunctionDevice(HeaderType(cs, bus, device, func))
    ensures !IsSingleFunctionDevice(StandardHeaderType(cs, bus, device, func)) ==>
              HeaderType(cs, bus, device, func) != StandardHeaderType(cs, bus, device, func)
  {
  }

  /** A register read ignores the two low bits of the offset. */
  lemma ReadConfRegIgnoresLowBits(cs: ConfigSpace, dev: Device, offset: bv8)
    ensures ReadConfReg(cs, dev, offset) == ReadConfReg(cs, dev, offset & 0xFC)
  {
  }

  /** A register read of a function-1 record below offset 0x80 is a read of
      the function-0 record of the same slot, at the offset with bit 7 set;
      BAR reads go through the same path. */
  lemma ReadConfRegAliasesFunctionZero(cs: ConfigSpace, dev: Device, offset: bv8)
    requires dev.func == 1 && offset < 0x80
    ensures ReadConfReg(cs, dev, offset) == ReadConfReg(cs, dev.(func := 0), offset | 0x80)
  {
  }

    /** A 64-bit BAR value splits back into the two registers it was read from. */
  lemma CombineRoundTrip(v: bv64)
    ensures Combine(Low32(v), High32(v)) == v
  {
  }
}
