/** The PCI configuration mechanism #1 address word as kernel/pci.cpp builds
    it, next to the layout of section 3.2.2.3.2 of the PCI Local Bus
    Specification 3.0 that it is meant to follow.

    The source shifts the function number by 7 where the standard shifts it
    by 8; this module keeps the code as written and proves where the two
    layouts agree and where they collide. */
module PciAddress {

  /** CONFIG_ADDRESS and CONFIG_DATA I/O ports (kernel/pci.hpp). */
  const ConfigAddress: bv16 := 0x0CF8
  const ConfigData: bv16 := 0x0CFC

  const EnableBit: bv32 := 0x8000_0000

  /** `GenerateAddress` as written: enable bit, bus at 16, device at 11,
      function at 7, and the register offset rounded down to a dword. */
  function GenerateAddress(bus: bv8, device: bv8, func: bv8, offset: bv8): (a: bv32)
    ensures a & EnableBit == EnableBit
    ensures a & 3 == 0
    // For in-range device and function numbers and an offset below 0x80 the
    // fields can be read back from the word.
    ensures device < 32 && func < 8 && offset < 0x80 ==>
              && (a >> 16) & 0xFF == bus as bv32
              && (a >> 11) & 0x1F == device as bv32
              && (a >> 7) & 0x7 == func as bv32
              && a & 0x7F == (offset & 0x7C) as bv32
  {
    ((1 as bv32) << 31) | ((bus as bv32) << 16) | ((device as bv32) << 11)
      | ((func as bv32) << 7) | ((offset & 0xFC) as bv32)
  }

  /** The standard layout: bits 23:16 bus, 15:11 device, 10:8 function,
      7:2 register number. */
  function StandardAddress(bus: bv8, device: bv8, func: bv8, offset: bv8): (a: bv32)
    requires device < 32 && func < 8
    ensures a & EnableBit == EnableBit
    ensures (a >> 16) & 0xFF == bus as bv32
    ensures (a >> 11) & 0x1F == device as bv32
    ensures (a >> 8) & 0x7 == func as bv32
    ensures a & 0xFF == (offset & 0xFC) as bv32
  {
    EnableBit | ((bus as bv32) << 16) | ((device as bv32) << 11)
      | ((func as bv32) << 8) | ((offset & 0xFC) as bv32)
  }

  /** With in-range fields and offsets below 0x80 the word determines bus,
      device, function and dword-aligned offset. */
  lemma GenerateAddressInjective(b1: bv8, d1: bv8, f1: bv8, o1: bv8,
                                 b2: bv8, d2: bv8, f2: bv8, o2: bv8)
    requires d1 < 32 && f1 < 8 && o1 < 0x80
    requires d2 < 32 && f2 < 8 && o2 < 0x80
    ensures GenerateAddress(b1, d1, f1, o1) == GenerateAddress(b2, d2, f2, o2)
            <==> b1 == b2 && d1 == d2 && f1 == f2 && o1 & 0xFC == o2 & 0xFC
  {
    var a1 := GenerateAddress(b1, d1, f1, o1);
    var a2 := GenerateAddress(b2, d2, f2, o2);
    if a1 == a2 {
      assert b1 as bv32 == b2 as bv32 && d1 as bv32 == d2 as bv32 && f1 as bv32 == f2 as bv32;
      assert (o1 & 0x7C) as bv32 == (o2 & 0x7C) as bv32;
      MaskBelow80(o1);
      MaskBelow80(o2);
    }
  }

  /** Below 0x80 dword-aligning an offset only clears bits 1:0. */
  lemma MaskBelow80(o: bv8)
    requires o < 0x80
    ensures o & 0xFC == o & 0x7C
  {
  }

  /** Above 0x7F the offset's bit 7 lands on the function's lowest bit: the
      word for function 1, register 0x00 is the word for function 0,
      register 0x80. */
  lemma FunctionAliasesHighOffset(bus: bv8, device: bv8, offset: bv8)
    requires offset < 0x80
    ensures GenerateAddress(bus, device, 1, offset) == GenerateAddress(bus, device, 0, offset | 0x80)
  {
  }

  /** The written layout agrees with the standard one exactly for function 0. */
  lemma GenerateAddressIsStandardIff(bus: bv8, device: bv8, func: bv8, offset: bv8)
    requires device < 32 && func < 8
    ensures GenerateAddress(bus, device, func, offset) == StandardAddress(bus, device, func, offset)
            <==> func == 0
  {
  }
}
