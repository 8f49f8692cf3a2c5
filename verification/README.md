# PCI enumeration and text console of a hobby x86-64 kernel, in Dafny

This project models the kernel's PCI bus enumerator and configuration-space
decoder (kernel/pci.cpp, kernel/pci.hpp), its error type (kernel/Error.hpp),
and the buffer-and-cursor logic of its text console (kernel/console.cpp).
It proves properties of that model.

The modules follow the source files:

- `Errors` (errors.dfy) covers `Error::Code`, the `code_names_` table,
  `Name()`, `operator bool`, `MAKE_ERROR` and `WithError<T>`.
- `PciAddress` (pci_address.dfy) covers the CONFIG_ADDRESS word exactly as
  `GenerateAddress` builds it. It also gives the layout of section 3.2.2.3.2
  of the PCI Local Bus Specification 3.0 as a reference to compare against.
- `PciConfig` (pci_config.dfy) covers configuration reads and their
  decoding: vendor and device ID, header type, class code, bus numbers,
  `ReadConfReg` and `ReadBar`.
  - The port pair CONFIG_ADDRESS/CONFIG_DATA becomes a pure function
    `ConfigSpace` from the address word to the dword read back.
  - This function is keyed by the word, not by the (bus, device, function,
    offset) tuple. Two tuples that `GenerateAddress` maps to the same word
    therefore read the same register, as they do on hardware.
- `PciRegistry` (pci_registry.dfy) covers the 32-entry `devices` array, the
  count `num_device`, and `AddDevice`.
- `PciScan` (pci_scan.dfy) covers the depth-first enumeration `ScanAllBus`,
  `ScanBus`, `ScanDevice` and `ScanFunction`.
  - The global registry is threaded through as a value, and each call
    returns the registry together with its error.
  - The registry is in discovery order. The function-0 records of the
    present slots of a bus lie at ascending indices in slot order, and the
    first present slot's record is the first one the bus scan appends.
  - On success, every bridge record is followed by a record for every
    present device of its secondary bus.
  - Each C++ `for` loop becomes a function that recurses on the loop index.
  - Termination needs no assumption about the bus topology:
    - every descent into a bridge happens after `AddDevice` has grown the
      count;
    - a full registry stops the scan with kFull.
- `TextConsole` (console.dfy) covers the `kRows x (kColumns + 1)` character
  buffer, the cursor, `PutString` and `NewLine`.

The code is modelled as written, including three places where it departs
from the PCI standard or from the usual enumeration convention. Each is
stated and proved as a lemma:

- `ReadHeaderType` computes `(ret & 0x0f00) >> 16`, which is always 0.
  Every device therefore looks single-function. Functions 1..7 are never
  probed (`PciScan.ScanDeviceScansOnlyFunctionZero`), and `ScanAllBus`
  always scans bus 0 (`PciScan.ScanAllBusScansBusZero`).
  - The multi-function paths are still modelled.
  - They sit behind helpers that take the header type as a parameter.
- `GenerateAddress` shifts the function number by 7, not 8:
  - it agrees with the standard word only for function 0
    (`PciAddress.GenerateAddressIsStandardIff`);
  - function 1, offset `o` collides with function 0, offset `o | 0x80`
    (`PciAddress.FunctionAliasesHighOffset`).
- The multi-function loop of `ScanAllBus` starts at function 1, where the
  usual convention scans bus `f` for every present host function `f` from 0
  on. The loop therefore never passes bus 0 to `ScanBus` itself
  (`PciScan.HostLoopSkipsFunctionZero`). Bus 0 can still be reached through
  a bridge on another host bus.

Where the two source files disagree, the model follows kernel/pci.cpp:

- kernel/pci.hpp declares `Device` without `class_code` and `ReadClassCode`
  as returning `uint32_t`.
- kernel/pci.cpp stores a `ClassCode` in each record and returns a
  `ClassCode` triple.

## Model

| member | source | states |
|---|---|---|
| `Errors.MakeError` | kernel/Error.hpp:39 | `MAKE_ERROR(c)` carries exactly the code `c` |
| `Errors.Failed` | kernel/Error.hpp:18-21 | an error is raised exactly when it is not `MAKE_ERROR(kSuccess)` |
| `Errors.MakeErrorFailedIff` | kernel/Error.hpp:18-21 | an error's truth value is true exactly when its code is not kSuccess |
| `Errors.Name` | kernel/Error.hpp:23-34 | `Name()` is defined for every code but the sentinel and gives the code's own `k`-prefixed identifier |
| `Errors.NameTableCoversAllButSentinel` | kernel/Error.hpp:7-14 | the four-entry name table has an entry for a code exactly when it is not kLastOfCode |
| `Errors.NameInjective` | kernel/Error.hpp:29-34 | two errors have the same name exactly when they have the same code |
| `PciAddress.GenerateAddress` | kernel/pci.cpp:18-25 | the word has the enable bit set and is dword-aligned; for in-range device, function and offset below 0x80, bus, device, function and aligned offset can be read back from their bit fields |
| `PciAddress.StandardAddress` | kernel/pci.cpp:18-25 | the reference CONFIG_ADDRESS layout that `GenerateAddress` is meant to build: bus 23:16, device 15:11, function 10:8, register 7:2, each readable back |
| `PciAddress.GenerateAddressInjective` | kernel/pci.cpp:18-25 | for in-range fields and offsets below 0x80, two words are equal exactly when bus, device, function and aligned offset are |
| `PciAddress.FunctionAliasesHighOffset` | kernel/pci.cpp:24 | the word for function 1, offset `o` below 0x80 is the word for function 0 at offset `o` with bit 7 set |
| `PciAddress.GenerateAddressIsStandardIff` | kernel/pci.cpp:24 | the word as built equals the standard word exactly when the function number is 0 |
| `PciConfig.MatchBaseSub` | kernel/pci.cpp:8-11 | the two-field match holds exactly when the class code is (base, sub, any interface) |
| `PciConfig.MatchFull` | kernel/pci.cpp:13-16 | the three-field match holds exactly when the class code is (base, sub, interface) |
| `PciConfig.IsPciBridge` | kernel/pci.cpp:118-120 | a PCI-to-PCI bridge is base class 0x06, sub class 0x04 |
| `PciConfig.ReadWord` | kernel/pci.cpp:42-46 | a configuration read of function 0 reads the register the standard layout names; a function-1 read below 0x80 reads function 0's register with bit 7 of the offset set |
| `PciConfig.VendorId` | kernel/pci.cpp:42-48 | the vendor ID is the low half of dword 0x00: it rebuilds the dword with the high half |
| `PciConfig.DeviceId` | kernel/pci.cpp:55-61 | the device ID is the high half of dword 0x00: it rebuilds the dword with the low half |
| `PciConfig.ReadClassCode` | kernel/pci.cpp:71-81 | base, sub and interface are bytes 3, 2 and 1 of dword 0x08: with byte 0 they rebuild the dword |
| `PciConfig.ReadBusNumbers` | kernel/pci.cpp:83-89 | for function 0 the bus numbers are the dword at offset 0x18 of the standard layout |
| `PciConfig.SecondaryBus` | kernel/pci.cpp:122 | the secondary bus is byte 1 of the bus-numbers dword: with the other three bytes it rebuilds the dword |
| `PciConfig.IsSingleFunctionDevice` | kernel/pci.cpp:91-94 | a header type is single-function exactly when it is below 0x80, that is, bit 7 is clear |
| `PciConfig.HeaderType` | kernel/pci.cpp:63-69 | the header type as decoded is 0 for every function |
| `PciConfig.EveryDeviceLooksSingleFunction` | kernel/pci.cpp:91-94 | every decoded header type passes the single-function test, and differs from the real byte whenever that byte has the multi-function bit set |
| `PciConfig.IdsSplitDwordZero` | kernel/pci.cpp:42-61 | device ID and vendor ID are exactly the high and low halves of dword 0x00 |
| `PciConfig.ClassCodeSplitsDwordEight` | kernel/pci.cpp:71-81 | base, sub and interface are bytes 3, 2 and 1 of dword 0x08, which they rebuild together with byte 0 |
| `PciConfig.SecondaryBusOfLayout` | kernel/pci.cpp:83-89 | the secondary bus number is taken from byte 1 of the bus-numbers dword |
| `PciConfig.MatchFullImpliesBaseSub` | kernel/pci.cpp:8-16 | a three-field class match implies the two-field match |
| `PciConfig.MatchBaseSubIgnoresInterface` | kernel/pci.cpp:8-11 | the two-field match does not depend on the programming interface |
| `PciConfig.ReadConfReg` | kernel/pci.cpp:194-198 | for a function-0 record the read hits the register the standard layout names; for a function-1 record below offset 0x80 it hits function 0's register with bit 7 of the offset set |
| `PciConfig.ReadConfRegIgnoresLowBits` | kernel/pci.cpp:24 | a register read ignores the two low bits of the offset |
| `PciConfig.ReadConfRegAliasesFunctionZero` | kernel/pci.cpp:194-198 | a function-1 register read below 0x80, BAR reads included, equals the function-0 read at the offset with bit 7 set |
| `PciConfig.CalcBarAddress` | kernel/pci.cpp:213 | BAR `i` lives at offset `0x10 + 4 i` |
| `PciConfig.Combine` | kernel/pci.cpp:229-231 | the combined 64-bit value has the given low and high dwords |
| `PciConfig.CombineRoundTrip` | kernel/pci.cpp:229-231 | splitting a 64-bit value and combining the halves gives the value back |
| `PciConfig.ReadBar` | kernel/pci.cpp:206-232 | index 6 or more fails with kIndexOutOfRange; a 32-bit BAR gives its register zero-extended; a 64-bit BAR in slot 5 fails with kIndexOutOfRange; otherwise the value is the register pair, low then high |
| `PciRegistry.InitialRegistry` | kernel/pci.hpp:26-27 | the static registry starts with 32 zeroed records and count 0 |
| `PciRegistry.AddDevice` | kernel/pci.cpp:96-106 | a full registry is returned unchanged with kFull; otherwise the record with the class code read from configuration space is stored at the old count, the count grows by one, and no other slot changes |
| `PciRegistry.AddDeviceFailsIffFull` | kernel/pci.cpp:98-101 | adding fails exactly when the registry is full, and a failed add changes nothing |
| `PciScan.ScanFunction` | kernel/pci.cpp:108-127 | the scan only appends and fails only with kFull on a full registry; the function's own record comes first, before anything found behind a bridge |
| `PciScan.ScanDevice` | kernel/pci.cpp:129-151 | the scan only appends and fails only with kFull on a full registry; function 0's record comes first |
| `PciScan.ScanRemainingFunctions` | kernel/pci.cpp:135-150 | a single-function header type adds nothing; the result only appends |
| `PciScan.ScanFunctionsFrom` | kernel/pci.cpp:139-149 | the loop over functions only appends and fails only with kFull on a full registry |
| `PciScan.ScanBus` | kernel/pci.cpp:153-168 | the bus scan only appends and fails only with kFull on a full registry |
| `PciScan.ScanBusFrom` | kernel/pci.cpp:155-166 | the loop over device slots only appends and fails only with kFull on a full registry |
| `PciScan.ScanAllBus` | kernel/pci.cpp:170-192 | every record left describes a present function 0 exactly as configuration space does; on success every present device of bus 0 has a record and every bridge record is followed by records for all present devices of its secondary bus; only kFull with a full registry is an error; storage past the count is untouched |
| `PciScan.ScanHost` | kernel/pci.cpp:174-191 | a single-function host bridge means scanning bus 0; either way the registry is only appended to |
| `PciScan.HostFunctionsFrom` | kernel/pci.cpp:179-190 | the host-function loop only appends and fails only with kFull on a full registry |
| `PciScan.ScanFunctionSound` | kernel/pci.cpp:108-127 | every record appended behind a function's own record describes a present function 0 |
| `PciScan.ScanDeviceSound` | kernel/pci.cpp:129-151 | every record appended by scanning a present device describes a present function, and all are function 0 |
| `PciScan.ScanRemainingFunctionsSound` | kernel/pci.cpp:135-150 | every record the remaining-function scan appends describes a present function |
| `PciScan.ScanFunctionsFromSound` | kernel/pci.cpp:139-149 | every record the function loop appends describes a present function |
| `PciScan.ScanBusSound` | kernel/pci.cpp:153-168 | every record a bus scan appends describes a present function 0 |
| `PciScan.ScanBusFromSound` | kernel/pci.cpp:155-166 | every record the device-slot loop appends describes a present function 0 |
| `PciScan.ScanHostSound` | kernel/pci.cpp:174-191 | every record the host-bridge decision appends describes a present function |
| `PciScan.HostFunctionsFromSound` | kernel/pci.cpp:179-190 | every record the host-function loop appends describes a present function |
| `PciScan.ScanBusCovers` | kernel/pci.cpp:153-168 | a successful bus scan leaves a function-0 record for every present device of the bus |
| `PciScan.ScanBusFromCovers` | kernel/pci.cpp:155-166 | a successful run of the slot loop from slot `d` covers every present device numbered `d` or above |
| `PciScan.BridgeSubtreeFollowsBridge` | kernel/pci.cpp:118-124 | a bridge's record precedes the records of its secondary bus, and a successful scan covers every present device of that bus |
| `PciScan.ScanBusOrder` | kernel/pci.cpp:153-168 | on success the function-0 records of the present slots of the bus lie at ascending indices in slot order, the first present slot's record at the starting count |
| `PciScan.ScanBusFromOrder` | kernel/pci.cpp:155-166 | on success the slot loop from slot `d` registers the present slots numbered `d` or above in ascending order, the first at the starting count |
| `PciScan.ScanAllBusOrder` | kernel/pci.cpp:170-178 | on success the present slots of bus 0 are registered in ascending order from index 0 |
| `PciScan.ScanAllBusFromInitial` | kernel/pci.hpp:26-27 | scanning from the zeroed static registry leaves the storage past the final count zeroed |
| `PciScan.ScanFunctionExpanded` | kernel/pci.cpp:108-127 | on success every bridge record a function scan appends is followed by records for all present devices of its secondary bus |
| `PciScan.ScanDeviceExpanded` | kernel/pci.cpp:129-151 | on success every bridge record a device scan appends is followed by its secondary bus's devices |
| `PciScan.ScanRemainingFunctionsExpanded` | kernel/pci.cpp:135-150 | on success every bridge record the remaining-function scan appends is followed by its secondary bus's devices |
| `PciScan.ScanFunctionsFromExpanded` | kernel/pci.cpp:139-149 | on success every bridge record the function loop appends is followed by its secondary bus's devices |
| `PciScan.ScanBusExpanded` | kernel/pci.cpp:153-168 | on success every bridge record a bus scan appends is followed by its secondary bus's devices |
| `PciScan.ScanBusFromExpanded` | kernel/pci.cpp:155-166 | on success every bridge record the slot loop appends is followed by its secondary bus's devices |
| `PciScan.ScanDeviceScansOnlyFunctionZero` | kernel/pci.cpp:135-138 | scanning a device is scanning its function 0 |
| `PciScan.ScanAllBusScansBusZero` | kernel/pci.cpp:172-178 | scanning all buses is scanning bus 0 from an emptied count |
| `PciScan.HostLoopSkipsFunctionZero` | kernel/pci.cpp:179-190 | the host-function loop never passes bus 0 to `ScanBus` itself: with host functions 1..7 absent it scans nothing, whatever bus 0 holds |
| `TextConsole.BlankRow` | kernel/console.cpp:51 | a cleared row holds `kColumns + 1` NULs |
| `TextConsole.NewConsole` | kernel/console.cpp:5-7 | a new console has a zeroed buffer and the cursor at row 0, column 0 |
| `TextConsole.NewLine` | kernel/console.cpp:30-53 | the column returns to 0; above the last row the row advances and the buffer is unchanged; on the last row every row moves up one, the last row is cleared, and the cursor stays |
| `TextConsole.PutChar` | kernel/console.cpp:13-25 | a newline is `NewLine`; another character is stored at the cursor and the column advances unless the row is full, in which case nothing changes; no other cell changes |
| `TextConsole.PutString` | kernel/console.cpp:9-28 | the buffer shape is kept, and so is the NUL that ends every row |
| `TextConsole.PutStringStopsAtNul` | kernel/console.cpp:11 | nothing after the first NUL is looked at |
| `TextConsole.PutStringConcat` | kernel/console.cpp:11-27 | printing two pieces in turn is printing their concatenation |
| `TextConsole.PutStringRow` | kernel/console.cpp:13-16 | the cursor row moves down by the number of newlines, held at the last row |
| `TextConsole.PutStringWritesRow` | kernel/console.cpp:19-24 | a newline-free string that fits lands in the row at the cursor, the column moves past it, and no other cell changes |
| `TextConsole.PutStringFullRowDrops` | kernel/console.cpp:19 | on a full row, characters up to the next newline are dropped |

## Left out

- `IoOut32`, `IoIn32`, `WriteAddress`, `WriteData`, `ReadData` (kernel/pci.cpp:27-40): port I/O is the `ConfigSpace` parameter. Configuration space is assumed not to change during a scan.
- `WriteConfReg` (kernel/pci.cpp:200-204): a write to hardware whose effect on later reads the source does not define.
- `ReadVendorId(Device&)` (kernel/pci.cpp:50-53): it forwards to `VendorId` with the record's fields.
- `CalcBarAddress`: kernel/pci.cpp:213 calls it, but neither kernel/pci.cpp nor kernel/pci.hpp defines it. `PciConfig.CalcBarAddress` assumes the type-0 header layout `0x10 + 4 * index`.
- `PciConfig.ReadBar`: the index is an unbounded `nat`, not a 32-bit `unsigned int`. This only matters for indices of 2^32 or more, which C++ would wrap.
- Pixel output (`WriteAscii`, `WriteString`, `writer_.Write`) in kernel/console.cpp: it changes the framebuffer only, never the buffer or the cursor.
- `kRows` and `kColumns`: console.hpp is not part of this model. They are the positive fields `rows` and `columns` of `Console`.
- The `Valid()` preconditions of the registry and the console are the invariants the C++ objects keep. They are not extra demands.
- Characters: a C `char` is one byte, while a Dafny `char` is a Unicode scalar value. The console only tests for NUL and `'\n'` and stores every other character as it is, so the wider type changes no modelled behaviour.
- `PciScan.ScanBusOrder` orders each slot's function-0 record, not every record of a slot. A bridge whose secondary bus leads back to an earlier bus can register records of a later slot before that slot is reached.
- `TextConsole.PutChar` requires a character other than NUL, because the loop of `PutString` stops before a NUL reaches it.
- Graphics, fonts, the kernel entry point, interrupts, MSI, the xHCI hand-off and the event queue are outside the modelled core.
