# dt65pc simulator core in Dafny

This project models the byte-level machinery of the dt65pc 65816 simulator.

- **Addresses.** The 24-bit bank:offset `Address` of the 65816 bus. Its absolute value is `bank << 16 | offset`.
- **Devices.** A device either claims an absolute address and turns it into a device-local address, or rejects it.
  - RAM: a flat array of whole 64K banks.
  - ROM: a read-only image mapped at a base address.
  - PC16550D UART: described below.
- **Stack.** A bank-0 cursor over the bus that grows downward.
- **Interrupt opcodes.** BRK, COP and RTI.
- **Miscellaneous opcodes.** XBA, STP, WAI, WDM and NOP, and the MVN/MVP block moves.
- **UART.** The PC16550D is modelled at register level:
  - a divisor latch gated by DLAB;
  - 16-entry transmit and receive FIFOs;
  - read-to-clear status registers;
  - loopback;
  - a transmit countdown driven by the CPU's cycle count.

The code that changes state in place is kept imperative:
- `Ram` writes its storage array;
- `Stack`, `Cpu65816` and `UartPC16550D` are classes whose methods update their fields;
- the MVN/MVP loop is a `while` loop over the bus.

Each such method is proved to produce the state that a specification function computes from the old state. The functions are:
- `StackState.Push8/Pull8/Push16/Pull16`;
- `Interrupts.Brk/Cop/Rti`;
- `MiscOps.Xba/Move/BlockMove`;
- `UartState.Store/Read/AddCycles`.

The properties the simulator promises are proved as lemmas about those functions:
- round trips of the stack and the registers;
- the interrupt frames, and BRK followed by RTI;
- what a block move copies and what it leaves alone;
- the UART's FIFO, status, loopback and countdown behaviour.

The bus is one total memory of 2^24 bytes (`Memory.Bus`). The status register is the bits of its byte (`Bytes.Bits`), with the 65816 layout: zero 0x02, IRQ disable 0x04, decimal 0x08, break 0x10, sign 0x80. The emulation flag is held beside it.

## Model

| member | source | states |
|---|---|---|
| Addressing.Address.GetBankAndOffset | simulator/include/SystemBusDevice.hpp:51-54 | the pair written out rebuilds the same address: nothing is lost in the split |
| Addressing.AbsoluteBounds | simulator/include/SystemBusDevice.hpp:64-66 | the absolute value is below 2^24; its top byte is the bank and its low 16 bits the offset |
| Addressing.FromAbsolute | simulator/include/SystemBusDevice.hpp:64-66 | for a value below 2^24, the address `((a >> 16) & 0xFF, a & 0xFFFF)` has absolute value `a` |
| Addressing.SplitJoin | simulator/include/SystemBusDevice.hpp:56-66 | splitting an address's absolute value gives back the bank and offset it was built from |
| Addressing.AbsoluteInjective | simulator/include/SystemBusDevice.hpp:64-66 | two addresses with equal absolute values have equal bank and equal offset |
| Addressing.IncrementThenDecrement | simulator/include/SystemBusDevice.hpp:48-49 | moving the offset up and then down by the same amount, or down then up, returns to the same address |
| Addressing.OffsetArithmetic | simulator/include/SystemBusDevice.hpp:48-49 | two upward moves compose when their sum fits 16 bits; a downward move followed by a shorter upward move is a shorter downward move |
| Memory.Write | simulator/include/SystemBusDevice.hpp:76-86 | after a store at `a`, address `a` reads back the stored byte |
| Memory.WriteKeeps | simulator/include/SystemBusDevice.hpp:76-86 | a store at `a` leaves every other address unchanged |
| Memory.Bus.StoreByte | simulator/include/SystemBus.hpp:32 | the bus image after a store is the image with that one address replaced |
| RamDevice.Ram.constructor | simulator/src/Ram.cpp:21-23 | the storage holds exactly `banks` × 0x10000 bytes |
| RamDevice.Ram.DecodeAddress | simulator/src/Ram.cpp:37-40 | an address is claimed if and only if its bank is below the bank count; the output is the input, and it indexes the storage in bounds |
| RamDevice.Ram.StoreByte | simulator/src/Ram.cpp:29-35 | after `storeByte(a, v)`, `readByte(a)` returns `v` and every other claimed address reads what it read before |
| RamDevice.Ram.ReadByte | simulator/src/Ram.cpp:33-35 | reads the cell bank × 0x10000 + offset, which lies inside the storage for every claimed address |
| RomDevice.Rom.DecodeAddress | simulator/src/Rom.cpp:41-45 | claimed if and only if `(abs(in) - abs(base)) mod 2^32` is inside the image; the decoded address then has that distance as its absolute value |
| RomDevice.Rom.ReadByte | simulator/src/Rom.cpp:37-39 | reads the image at bank × 0x10000 + offset of the decoded address, so the byte read is always one the image was loaded with |
| RomDevice.Rom.StoreByte | simulator/include/Rom.hpp:36 | a store keeps the image and the base |
| RomDevice.BelowBaseRejected | simulator/src/Rom.cpp:41-45 | an address below the base wraps to a huge distance and is rejected |
| RomDevice.AboveBaseDecode | simulator/src/Rom.cpp:41-45 | an address at or above the base is claimed if and only if its distance from the base is inside the image |
| RomDevice.DecodeThenRead | simulator/src/Rom.cpp:37-45 | reading a claimed address is in bounds and returns `image[abs(in) - abs(base)]` |
| RomDevice.StoresLeaveImage | simulator/include/Rom.hpp:36 | after any sequence of stores, every address reads the byte originally loaded there |
| RomDevice.StoreAll | simulator/include/Rom.hpp:36 | stores never change the size of the image |
| CpuStack.StackState.Push8 | simulator/src/Stack.cpp:36-39 | a push keeps the cursor in bank 0 over a full bus image |
| CpuStack.StackState.Pull8 | simulator/src/Stack.cpp:48-51 | a pull keeps the cursor in bank 0 and leaves memory unchanged |
| CpuStack.StackState.Push16 | simulator/src/Stack.cpp:41-46 | a 16-bit push keeps the cursor in bank 0 |
| CpuStack.StackState.Pull16 | simulator/src/Stack.cpp:53-55 | a 16-bit pull keeps the cursor in bank 0 and leaves memory unchanged |
| CpuStack.Pull16Reads | simulator/src/Stack.cpp:53-55 | `pull16Bit` returns the word whose low byte is one above the cursor and whose high byte is two above, and raises the cursor by 2 |
| CpuStack.PushAll | simulator/src/Stack.cpp:36-39 | any run of pushes keeps the stack in bank 0 |
| CpuStack.PushAllCursor | simulator/src/Stack.cpp:36-39 | pushing `n` bytes lowers the cursor by `n` |
| CpuStack.PushAllKeeps | simulator/src/Stack.cpp:36-39 | pushing a run of bytes leaves every address outside the run unchanged |
| CpuStack.PushAllPlaces | simulator/src/Stack.cpp:36-39 | byte `i` of a pushed run lies `i` below the old cursor |
| CpuStack.EmulationPointer | simulator/src/Stack.cpp:61-63 | `setEmulation` gives bank 0, a high byte of 0x01 and the old low byte |
| CpuStack.Push8ThenPull8 | simulator/src/Stack.cpp:36-51 | `push8Bit(v); pull8Bit()` returns `v` and restores the cursor |
| CpuStack.Push16Layout | simulator/src/Stack.cpp:41-46 | `push16Bit(v)` puts the high byte at the old cursor and the low byte one below, lowers the cursor by 2 and changes no other address |
| CpuStack.Push16ThenPull16 | simulator/src/Stack.cpp:41-55 | `push16Bit(v)` followed by `pull16Bit()` returns `v` and restores the cursor |
| CpuStack.Stack.InEmulation | simulator/src/Stack.cpp:25-28 | the constructor without a pointer yields a bank-0 cursor with high byte 0x01 |
| CpuStack.Stack.WithPointer | simulator/src/Stack.cpp:30-34 | the constructor with a pointer yields the cursor (0, pointer) |
| CpuStack.Stack.Push8Bit | simulator/src/Stack.cpp:36-39 | the object's cursor and bus follow `Push8` |
| CpuStack.Stack.Push16Bit | simulator/src/Stack.cpp:41-46 | the object's cursor and bus follow `Push16` |
| CpuStack.Stack.Pull8Bit | simulator/src/Stack.cpp:48-51 | the byte returned and the new cursor are those of `Pull8` |
| CpuStack.Stack.Pull16Bit | simulator/src/Stack.cpp:53-55 | the word returned and the new cursor are those of `Pull16` |
| CpuStack.Stack.GetStackPointer | simulator/src/Stack.cpp:57-59 | the 16-bit pointer determines the cursor: placed in bank 0 it is exactly the stack address |
| CpuStack.Stack.SetEmulation | simulator/src/Stack.cpp:61-63 | the cursor becomes `EmulationPointer` of the old one |
| CpuState.RegisterValueRoundTrip | simulator/src/opcodes/OpCode_Interrupt.cpp:75 | the status byte set by RTI reads back as the pulled byte; setting a status from its own byte changes nothing; the emulation flag is not part of the byte |
| CpuState.BreakFlagSet | simulator/src/opcodes/OpCode_Interrupt.cpp:37 | `setBreakFlag` sets the break bit and keeps every other bit and the emulation flag |
| CpuState.InterruptDisableSet | simulator/src/opcodes/OpCode_Interrupt.cpp:47-64 | `setInterruptDisableFlag` sets IRQ disable and keeps every other bit and the emulation flag |
| CpuState.DecimalCleared | simulator/src/opcodes/OpCode_Interrupt.cpp:48-68 | `clearDecimalFlag` clears decimal mode and keeps every other bit and the emulation flag |
| CpuState.SignAndZero | simulator/src/opcodes/OpCode_Misc.cpp:36 | sign becomes bit 7 of the value, zero becomes whether the value is 0, and every other bit is kept |
| CpuState.Registers.AddToProgramAddress | simulator/src/opcodes/OpCode_Misc.cpp:61-72 | the program bank is kept, the offset advances by `n` modulo 0x10000, and every other register is unchanged |
| CpuState.Registers.AddToCycles | simulator/src/opcodes/OpCode_Misc.cpp:61-72 | the cycle counter grows by exactly `n` and every other register is unchanged |
| Interrupts.Prepare | simulator/src/opcodes/OpCode_Interrupt.cpp:36-61 | the mode-dependent part of BRK and COP keeps the stack in bank 0 |
| Interrupts.Vector | simulator/src/opcodes/OpCode_Interrupt.cpp:45-65 | the shared interrupt entry keeps the stack in bank 0 |
| Interrupts.VectorCharged | simulator/src/opcodes/OpCode_Interrupt.cpp:55-66 | COP charging its cycles after the pushes and jump ends in the same state as charging them before |
| Interrupts.Enter | simulator/src/opcodes/OpCode_Interrupt.cpp:45-49 | interrupt entry keeps the stack in bank 0 |
| Interrupts.Brk | simulator/src/opcodes/OpCode_Interrupt.cpp:33-50 | BRK keeps the stack in bank 0 |
| Interrupts.Cop | simulator/src/opcodes/OpCode_Interrupt.cpp:52-70 | COP keeps the stack in bank 0 |
| Interrupts.Rti | simulator/src/opcodes/OpCode_Interrupt.cpp:71-89 | RTI keeps the stack in bank 0 and writes no memory |
| Interrupts.Execute | simulator/src/opcodes/OpCode_Interrupt.cpp:31-94 | every case keeps the stack in bank 0 |
| Interrupts.EnterPushesFrame | simulator/src/opcodes/OpCode_Interrupt.cpp:36-63 | the stack after entry is the old stack with the frame pushed one byte at a time: 3 bytes in emulation mode, 4 in native mode (bank first) |
| Interrupts.EnterRegisters | simulator/src/opcodes/OpCode_Interrupt.cpp:39-49 | after entry the program address is bank 0 at the word read from the vector; IRQ disable is set and decimal cleared; the cost is charged; A, X, Y and DB are kept |
| Interrupts.EntryStatus | simulator/src/opcodes/OpCode_Interrupt.cpp:47-68 | after BRK or COP, IRQ disable is set and decimal is clear; the emulation and break flags are those that were pushed |
| Interrupts.BrkEmulationFrame | simulator/src/opcodes/OpCode_Interrupt.cpp:36-49 | emulation-mode BRK sets break before the push, pushes return high, return low and status, charges 7 cycles and vectors through EIRQ into bank 0 |
| Interrupts.BrkNativeFrame | simulator/src/opcodes/OpCode_Interrupt.cpp:40-49 | native-mode BRK pushes bank, return high, return low and status, charges 8 cycles and vectors through NBRK into bank 0 |
| Interrupts.CopFrame | simulator/src/opcodes/OpCode_Interrupt.cpp:52-69 | COP pushes BRK's frames without touching break, with ECOP and 7 cycles in emulation mode and NCOP and 8 cycles in native mode |
| Interrupts.RtiStatus | simulator/src/opcodes/OpCode_Interrupt.cpp:75 | RTI first takes the status byte from one above the cursor and keeps A, X, Y and DB |
| Interrupts.RtiEmulationPulls | simulator/src/opcodes/OpCode_Interrupt.cpp:77-80 | emulation-mode RTI then pulls a 16-bit offset, keeps the bank, raises the cursor by 3 and charges 6 cycles |
| Interrupts.RtiNativePulls | simulator/src/opcodes/OpCode_Interrupt.cpp:81-87 | native-mode RTI pulls the offset and then the bank, raises the cursor by 4 and charges 7 cycles |
| Interrupts.FrameByte | simulator/src/Stack.cpp:36-51 | the `n`-th byte pulled after pushing a frame is byte `len - n` of that frame |
| Interrupts.RtiEmulationOver | simulator/src/opcodes/OpCode_Interrupt.cpp:75-80 | emulation-mode RTI over the three bytes above the cursor takes the status from the first and the offset, low byte first, from the next two, raising the cursor by 3 |
| Interrupts.RtiAfterEmulationFrame | simulator/src/opcodes/OpCode_Interrupt.cpp:75-80 | emulation-mode RTI over a freshly pushed 3-byte frame pulls that frame back and restores the cursor |
| Interrupts.RtiAfterNativeFrame | simulator/src/opcodes/OpCode_Interrupt.cpp:75-87 | native-mode RTI over a freshly pushed 4-byte frame pulls that frame back and restores the cursor |
| Interrupts.BrkThenRtiNative | simulator/src/opcodes/OpCode_Interrupt.cpp:40-86 | native BRK then RTI restores the stack pointer and the status and returns to (old bank, old offset + 2), 15 cycles in all |
| Interrupts.BrkThenRtiEmulation | simulator/src/opcodes/OpCode_Interrupt.cpp:36-80 | emulation BRK then RTI restores the stack pointer, returns to bank 0 at old offset + 2 with break set in the status, 13 cycles in all |
| Interrupts.OtherOpcodeUnchanged | simulator/src/opcodes/OpCode_Interrupt.cpp:90-92 | an opcode other than 0x00, 0x02 and 0x40 changes no state |
| MiscOps.Decrement | simulator/src/opcodes/OpCode_Misc.cpp:89-114 | each `mA--` inside the loop leaves one pass fewer to make |
| MiscOps.BlockMove | simulator/src/opcodes/OpCode_Misc.cpp:83-117 | the block-move loop yields a full bus image |
| MiscOps.Xba | simulator/src/opcodes/OpCode_Misc.cpp:31-38 | XBA keeps the stack in bank 0 |
| MiscOps.Move | simulator/src/opcodes/OpCode_Misc.cpp:73-122 | a block move keeps the stack in bank 0 |
| MiscOps.Execute | simulator/src/opcodes/OpCode_Misc.cpp:29-128 | every case keeps the stack in bank 0 |
| MiscOps.XbaSwaps | simulator/src/opcodes/OpCode_Misc.cpp:31-38 | XBA swaps the bytes of A, so XBA twice restores A; sign and zero come from the old high byte and every other status bit is kept; PC + 1, cycles + 3; X, Y, DB, the stack, memory, RES and RDY unchanged |
| MiscOps.StopAndWait | simulator/src/opcodes/OpCode_Misc.cpp:40-59 | STP raises RES and WAI lowers RDY; each moves the PC by 1 and adds 3 cycles; nothing else changes |
| MiscOps.NoOperation | simulator/src/opcodes/OpCode_Misc.cpp:61-72 | WDM moves the PC by 2 and NOP by 1, each adding 2 cycles; nothing else changes |
| MiscOps.OtherOpcodeUnchanged | simulator/src/opcodes/OpCode_Misc.cpp:123-126 | an opcode outside the group changes no state |
| MiscOps.MoveExit | simulator/src/opcodes/OpCode_Misc.cpp:75-120 | on exit A is 0xFFFF, DB is the first operand byte, the PC has moved by 3, (A + 1) mod 65536 passes of 7 cycles were made, and X, Y, the stack and the status are untouched |
| MiscOps.CursorCovered | simulator/src/opcodes/OpCode_Misc.cpp:87-113 | the `i`-th cursor position lies in the range covered by the first `n` passes |
| MiscOps.CursorStep | simulator/src/opcodes/OpCode_Misc.cpp:87-113 | moving a cursor one step is the same as moving it one pass further |
| MiscOps.DistanceStep | simulator/src/opcodes/OpCode_Misc.cpp:87-113 | after one step every other address of the bank is one pass nearer |
| MiscOps.BlockMoveKeeps | simulator/src/opcodes/OpCode_Misc.cpp:83-117 | a block move changes no address outside its destination range |
| MiscOps.BlockMoveCopies | simulator/src/opcodes/OpCode_Misc.cpp:84-113 | for non-overlapping ranges, MVN leaves at Y + i the byte that was at X + i and MVP leaves at Y - i the byte that was at X - i, for every pass i |
| Cpu.Cpu65816.ExecuteInterrupt | simulator/src/opcodes/OpCode_Interrupt.cpp:31-94 | the CPU's registers, stack and bus after the opcode are those `Interrupts.Execute` gives |
| Cpu.Cpu65816.Brk | simulator/src/opcodes/OpCode_Interrupt.cpp:33-50 | the new state is `Interrupts.Brk` of the old one |
| Cpu.Cpu65816.PushReturnAndJump | simulator/src/opcodes/OpCode_Interrupt.cpp:45-49 | the new state is `Interrupts.Enter` of the old one |
| Cpu.Cpu65816.PushReturn | simulator/src/opcodes/OpCode_Interrupt.cpp:45-46 | the stack receives the 16-bit return offset and then the status byte |
| Cpu.Cpu65816.Cop | simulator/src/opcodes/OpCode_Interrupt.cpp:52-70 | the new state is `Interrupts.Cop` of the old one |
| Cpu.Cpu65816.CopEmulation | simulator/src/opcodes/OpCode_Interrupt.cpp:54-59 | the emulation-mode branch charges 7 cycles and enters through ECOP |
| Cpu.Cpu65816.CopNative | simulator/src/opcodes/OpCode_Interrupt.cpp:60-66 | the native-mode branch pushes the bank, charges 8 cycles and enters through NCOP |
| Cpu.Cpu65816.PushReturnAndVector | simulator/src/opcodes/OpCode_Interrupt.cpp:55-65 | the new state is `Interrupts.Vector` of the old one |
| Cpu.Cpu65816.Rti | simulator/src/opcodes/OpCode_Interrupt.cpp:71-89 | the new state is `Interrupts.Rti` of the old one |
| Cpu.Cpu65816.MoveBlock | simulator/src/opcodes/OpCode_Misc.cpp:83-117 | the loop leaves the bus as `BlockMove` computes it, A at 0xFFFF and 7 cycles charged per pass |
| Cpu.Cpu65816.ExecuteMisc | simulator/src/opcodes/OpCode_Misc.cpp:29-128 | the CPU's registers and bus after the opcode are those `MiscOps.Execute` gives |
| Cpu.Cpu65816.Xba | simulator/src/opcodes/OpCode_Misc.cpp:31-38 | the new state is `MiscOps.Xba` of the old one |
| Cpu.Cpu65816.Move | simulator/src/opcodes/OpCode_Misc.cpp:73-122 | the new state is `MiscOps.Move` of the old one |
| Uart.UartState.DecodeAddress | simulator/src/Uart.cpp:286-291 | claimed if and only if `(abs(in) - base) mod 2^32 < 8`; the output is bank 0 at that distance |
| Uart.UartState.Receive | simulator/src/Uart.cpp:386-409 | receiving keeps the FIFOs within 16 bytes and empty outside FIFO mode |
| Uart.UartState.TakeTransmitted | simulator/src/Uart.cpp:358-377 | taking the byte to send keeps the FIFO bounds |
| Uart.UartState.Send | simulator/src/Uart.cpp:358-384 | `send` keeps the FIFO bounds |
| Uart.UartState.Hold | simulator/src/Uart.cpp:98-112 | holding a written byte keeps the transmit FIFO within 16 bytes |
| Uart.UartState.WriteData | simulator/src/Uart.cpp:96-117 | a data write keeps the FIFO bounds |
| Uart.UartState.WriteFcr | simulator/src/Uart.cpp:137-173 | an FCR write leaves FCR at 0 or exactly FIFO_ENABLE, with the FIFOs empty when it is 0 |
| Uart.UartState.ResetFifos | simulator/src/Uart.cpp:139-152 | resetting FIFOs keeps the FIFO bounds |
| Uart.UartState.EnableFifos | simulator/src/Uart.cpp:153-161 | enabling FIFOs gives a valid state from any state |
| Uart.UartState.DisableFifos | simulator/src/Uart.cpp:162-173 | disabling FIFOs leaves them empty with FCR 0 |
| Uart.UartState.WriteMcr | simulator/src/Uart.cpp:180-191 | an MCR write keeps the FIFO bounds |
| Uart.UartState.Store | simulator/src/Uart.cpp:83-205 | every register write keeps the FIFO bounds and the FCR invariant |
| Uart.UartState.ReadData | simulator/src/Uart.cpp:212-238 | a data read keeps the FIFO bounds |
| Uart.UartState.Read | simulator/src/Uart.cpp:207-284 | every register read keeps the FIFO bounds and the FCR invariant |
| Uart.UartState.Transmit | simulator/src/Uart.cpp:302-327 | sending one byte to the terminal keeps the FIFO bounds |
| Uart.UartState.PollTerminal | simulator/src/Uart.cpp:329-337 | receiving a polled terminal byte keeps the FIFO bounds |
| Uart.UartState.AddCycles | simulator/src/Uart.cpp:293-340 | counting cycles keeps the FIFO bounds and the FCR invariant |
| Uart.Reset | simulator/src/Uart.cpp:65-76 | after construction the UART is out of FIFO, DLAB and loopback mode, LSR is 0x60, IIR is 1 and nothing has been sent |
| UartDevice.UartPC16550D.constructor | simulator/src/Uart.cpp:65-76 | the object's state is `Reset` with the uninitialised registers left as they come |
| UartDevice.UartPC16550D.SetByteRate | simulator/src/Uart.cpp:350-356 | clocks-per-byte becomes twice the divisor `DLM:DLL`; nothing else changes |
| UartDevice.UartPC16550D.SetMsr | simulator/src/Uart.cpp:411-421 | the bits of the mask become `set`; the other MSR bits keep their values |
| UartDevice.UartPC16550D.Receive | simulator/src/Uart.cpp:386-409 | the new state is `UartState.Receive` of the old one |
| UartDevice.UartPC16550D.ReceiveIntoFifo | simulator/src/Uart.cpp:388-397 | the FIFO-mode arm agrees with `UartState.Receive` |
| UartDevice.UartPC16550D.ReceiveIntoBuffer | simulator/src/Uart.cpp:398-408 | the RBR arm agrees with `UartState.Receive` |
| UartDevice.UartPC16550D.TakeTransmitted | simulator/src/Uart.cpp:358-377 | the byte returned and the new state are those of `UartState.TakeTransmitted` |
| UartDevice.UartPC16550D.Send | simulator/src/Uart.cpp:358-384 | the new state is `UartState.Send` of the old one |
| UartDevice.UartPC16550D.Hold | simulator/src/Uart.cpp:98-112 | the new state is `UartState.Hold` of the old one |
| UartDevice.UartPC16550D.WriteData | simulator/src/Uart.cpp:96-117 | the new state is `UartState.WriteData` of the old one |
| UartDevice.UartPC16550D.WriteFcr | simulator/src/Uart.cpp:139-173 | the new state is `UartState.WriteFcr` of the old one |
| UartDevice.UartPC16550D.ResetFifos | simulator/src/Uart.cpp:142-151 | only the FIFOs named by the reset bits are cleared |
| UartDevice.UartPC16550D.ClearFifos | simulator/src/Uart.cpp:156-169 | both FIFOs become empty and nothing else changes |
| UartDevice.UartPC16550D.EnableFifos | simulator/src/Uart.cpp:153-161 | the new state is `UartState.EnableFifos` of the old one |
| UartDevice.UartPC16550D.DisableFifos | simulator/src/Uart.cpp:162-173 | the new state is `UartState.DisableFifos` of the old one |
| UartDevice.UartPC16550D.SetFifoMode | simulator/src/Uart.cpp:159-172 | FCR and IIR take the given values and nothing else changes |
| UartDevice.UartPC16550D.WriteMcr | simulator/src/Uart.cpp:180-191 | the new state is `UartState.WriteMcr` of the old one |
| UartDevice.UartPC16550D.FollowModemControl | simulator/src/Uart.cpp:184-188 | MSR becomes `LoopbackMsr` of the old MSR and the MCR |
| UartDevice.UartPC16550D.WriteDll | simulator/src/Uart.cpp:88-93 | DLL takes the byte and the byte rate is recomputed |
| UartDevice.UartPC16550D.WriteDlm | simulator/src/Uart.cpp:122-127 | DLM takes the byte and the byte rate is recomputed |
| UartDevice.UartPC16550D.StoreByte | simulator/src/Uart.cpp:83-205 | the new state is `UartState.Store` of the old one |
| UartDevice.UartPC16550D.ReadByte | simulator/src/Uart.cpp:207-284 | the value returned and the new state are those of `UartState.Read` |
| UartDevice.UartPC16550D.ReadTerminal | simulator/src/Uart.cpp:332 | the key returned and the remaining input are those of `UartState.Poll` |
| UartDevice.UartPC16550D.AddCycles | simulator/src/Uart.cpp:293-340 | the new state is `UartState.AddCycles` of the old one |
| UartDevice.UartPC16550D.Transmit | simulator/src/Uart.cpp:302-327 | the new state is `UartState.Transmit` of the old one |
| UartDevice.UartPC16550D.PollTerminal | simulator/src/Uart.cpp:329-337 | the new state is `UartState.PollTerminal` of the old one |
| UartProperties.IerMaskValue | simulator/src/Uart.cpp:132 | the IER write mask keeps the value mod 16 |
| UartProperties.McrMaskValue | simulator/src/Uart.cpp:181 | the MCR write mask keeps the value mod 32 |
| UartProperties.DivisorLatch | simulator/src/Uart.cpp:87-127 | with DLAB set, offsets 0 and 1 write DLL and DLM, which read back unchanged; the other latch byte is kept; clocks-per-byte is (DLM × 256 + DLL) × 2 |
| UartProperties.PlainRegisterRoundTrip | simulator/src/Uart.cpp:176-200 | LCR and SCR read back what was written |
| UartProperties.IerRoundTrip | simulator/src/Uart.cpp:128-134 | IER reads back the written value with bits 4-7 cleared |
| UartProperties.McrRoundTrip | simulator/src/Uart.cpp:180-191 | MCR reads back the written value with bits 5-7 cleared |
| UartProperties.StatusNotWritable | simulator/src/Uart.cpp:193-196 | writes to LSR and MSR change nothing |
| UartProperties.DataWriteArms | simulator/src/Uart.cpp:96-117 | outside loopback a data write clears THRE and TEMT, keeps the other LSR bits and arms the countdown with one byte time |
| UartProperties.DataWriteQueues | simulator/src/Uart.cpp:98-112 | in FIFO mode the byte is appended while fewer than 16 are queued, and dropped when 16 already are; outside FIFO mode THR takes it; nothing is received or output |
| UartProperties.LoopbackEcho | simulator/src/Uart.cpp:358-409 | in loopback without FIFOs a written byte lands in RBR with DR, THRE and TEMT set, and OE set exactly when RBR was unread or OE already set; the countdown is not armed |
| UartProperties.LoopbackEchoRead | simulator/src/Uart.cpp:232-236 | reading the echoed byte returns it and clears DR but leaves `rbrFull` set |
| UartProperties.LoopbackFifoRead | simulator/src/Uart.cpp:212-231 | in loopback with FIFOs the byte reaches the receive FIFO, but the data read tests the now empty transmit FIFO and returns 0; the countdown is not armed |
| UartProperties.RbrRead | simulator/src/Uart.cpp:232-236 | without FIFOs a data read returns RBR and clears DR, keeps `rbrFull` and every other LSR bit, and changes nothing else |
| UartProperties.RbrReadThenReceiveOverruns | simulator/src/Uart.cpp:232-236 | because the RBR read never clears `rbrFull`, a byte received after reading the previous one still sets OE |
| UartProperties.FifoRead | simulator/src/Uart.cpp:218-230 | in FIFO mode with a non-empty transmit FIFO a data read returns the receive FIFO's front and pops it; DR stays set if and only if it was set and bytes remain; nothing else changes |
| UartProperties.FifoReadIdle | simulator/src/Uart.cpp:209-231 | in FIFO mode with an empty transmit FIFO a data read returns 0 and changes nothing |
| UartProperties.FcrEnable | simulator/src/Uart.cpp:153-161 | turning FIFO mode on clears both FIFOs and `rbrFull`, makes FCR exactly 1 and sets the IIR FIFO bits, keeping the other IIR bits |
| UartProperties.FcrDisable | simulator/src/Uart.cpp:162-173 | a value without FIFO_ENABLE clears the FIFOs, FCR and the IIR FIFO bits, keeping the other IIR bits |
| UartProperties.FcrReset | simulator/src/Uart.cpp:139-152 | in FIFO mode the reset bits clear only their own FIFO; FCR, IIR and `rbrFull` stay |
| UartProperties.ReceiveIntoFifo | simulator/src/Uart.cpp:388-397 | in FIFO mode the byte is appended while there is room; otherwise it is lost and OE set; DR is set; at most 16 bytes are held |
| UartProperties.ReceiveIntoBuffer | simulator/src/Uart.cpp:398-408 | without FIFOs RBR takes the byte, DR is set, and OE is set if and only if RBR was unread or OE already set |
| UartProperties.ReceiveKeepsTransmitterStatus | simulator/src/Uart.cpp:386-409 | receiving never changes THRE or TEMT |
| UartProperties.LsrRead | simulator/src/Uart.cpp:264-268 | reading LSR returns it and clears OE, PE, FE, BI and FIFO_ERR, keeping DR, THRE, TEMT and every other register |
| UartProperties.MsrRead | simulator/src/Uart.cpp:270-273 | reading MSR returns it and leaves 0xF0, so a second read returns 0xF0 |
| UartProperties.LoopbackModemStatus | simulator/src/Uart.cpp:180-191 | with LOOPBACK, CTS, DSR, RI and DCD follow RTS, DTR, OUT1 and OUT2 and the delta bits stay; without it MSR is unchanged |
| UartProperties.LoopbackMsrBits | simulator/src/Uart.cpp:185-188 | the four `setMSR` calls copy RTS, DTR, OUT1 and OUT2 into CTS, DSR, RI and DCD |
| UartProperties.SetMsrBitsMasks | simulator/src/Uart.cpp:411-421 | `setMSR` ORs the mask in when `set` holds and clears it otherwise |
| UartProperties.CountdownRunning | simulator/src/Uart.cpp:295-297 | while the countdown stays positive, `addCycles` only counts it down |
| UartProperties.CountdownTransmits | simulator/src/Uart.cpp:299-327 | an expired countdown is reloaded by one byte time; with THRE clear exactly one byte (FIFO front or THR) reaches a connected terminal, otherwise none does |
| UartProperties.PollKeepsTransmitterStatus | simulator/src/Uart.cpp:329-337 | polling the terminal never changes THRE or TEMT |
| UartProperties.CountdownEmpties | simulator/src/Uart.cpp:302-319 | after a byte is sent, THRE is set again if and only if nothing is left to send, and TEMT with it |
| UartProperties.CountdownReceives | simulator/src/Uart.cpp:329-337 | an expired countdown polls a connected terminal once; a non-zero byte lands in RBR, or at the back of a receive FIFO with room, or is dropped with OE set when the FIFO is full, and DR is set in every case |
| UartProperties.PollReceives | simulator/src/Uart.cpp:329-337 | a connected terminal holding a non-zero byte: one poll consumes that byte and receives it |
| UartProperties.FifoEnableStrandsThre | simulator/src/Uart.cpp:302-313 | turning FIFO mode on while THRE is clear leaves an empty transmit FIFO with THRE clear, so the next expiry would pop an empty FIFO |

## Left out

- Logging (`Log`) is a no-op and is not modelled.
- The terminal's console I/O is not modelled.
  - Input is a sequence of bytes, one taken per poll; 0 means no key.
  - Output is a log of the bytes written.
  - Whether a terminal is attached is a constant of the UART.
- The ROM image is a given byte sequence. Loading it from a file is not modelled.
- The UART's `checkForInterrupts` has an empty body in the simulator, so it is not modelled.
- SystemBus and Cpu65816 are not part of this model.
  - The bus is a total memory of 2^24 bytes, with no device dispatch.
  - `readTwoBytes` is read little-endian, with the high byte one offset up in the same bank.
  - The CPU state is a minimal record: A, X, Y, DB, the program address, the cycle count, the status byte with the emulation flag, and the RES and RDY pins.
  - The vector locations EIRQ, NBRK, ECOP and NCOP are parameters.
  - Where MVN/MVP find their operand bytes is a parameter.
- `incrementOffsetBy`, `decrementOffsetBy` and `addToProgramAddress` have bodies outside this model. They are taken to move the offset modulo 65536 and to keep the bank.
- The cycle counter is an unbounded natural number.
- The other `Address` helpers (`offsetsAreOnDifferentPages`, `sumOffsetTo*`, `newWithOffset*`) are not modelled; their bodies are not part of this model.
- Registers the simulator leaves uninitialised are left arbitrary.
  - UART: RBR, THR, SCR, DLL, DLM and the countdown, which come in as arbitrary values.
  - RAM: the initial contents.
  - The stack: the offset of the default-constructed address.
- CpuStack.StackState.Pull16: C++ does not fix the evaluation order of the two `pull8Bit()` calls in one expression. The model pulls the low byte first.
- Uart.UartState.ReadData: the FIFO data read tests the transmit FIFO but pops the receive FIFO. Popping an empty deque is undefined, so the precondition `CanReadData` requires a received byte in that case.
- Uart.UartState.Send: `send` in loopback FIFO mode pops the transmit FIFO without a check. The precondition `CanSend` excludes an empty FIFO there.
- Uart.UartState.AddCycles: the countdown subtraction is signed `int` arithmetic, whose overflow is undefined, so it is a precondition. An expired countdown with THRE clear pops the transmit FIFO without a check, so it must then be non-empty (`CanAddCycles`). `UartProperties.FifoEnableStrandsThre` shows this can fail.
- Uart.UartState: `+= mClocksPerByte` and `= mClocksPerByte` convert an unsigned 32-bit value into `int`. They are modelled as wrap-around modulo 2^32 (`WrapInt32`).
- Interrupts.Rti, Interrupts.Brk, MiscOps.Move: the status byte is modelled as the register's plain bits. How the M and X bits interact with the emulation flag inside CpuStatus is not part of this model.
