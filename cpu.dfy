/**
 * The CPU object: its registers are fields updated in place, and its stack and bus are shared
 * objects. Each `Execute…` method follows the opcode implementation statement by statement and is
 * proved to produce the machine state that the matching specification function describes.
 */
module Cpu {
  import opened Bytes
  import opened Addressing
  import opened Memory
  import opened CpuStack
  import opened CpuState
  import Interrupts
  import MiscOps

  class Cpu65816 {
    const bus: Bus
    const stack: Stack
    /** The EIRQ, NBRK, ECOP and NCOP vector locations of the machine. */
    const vectors: Vectors

    var a: uint16
    var x: uint16
    var y: uint16
    var db: uint8
    var programAddress: Address
    var cycles: nat
    var status: CpuStatus
    var resPin: bool
    var rdyPin: bool

    ghost predicate Valid()
      reads this, stack, bus
    {
      stack.bus == bus && stack.Valid()
    }

    ghost function Regs(): Registers
      reads this
    {
      Registers(a, x, y, db, programAddress, cycles, status, resPin, rdyPin)
    }

    /** The machine as the specification functions see it. */
    ghost function State(): Machine
      reads this, stack, bus
    {
      Machine(Regs(), stack.address, bus.mem)
    }

    constructor (stack: Stack, vectors: Vectors, initial: Registers)
      requires stack.Valid()
      ensures Valid() && this.stack == stack && this.vectors == vectors
      ensures Regs() == initial
    {
      this.bus := stack.bus;
      this.stack := stack;
      this.vectors := vectors;
      a, x, y, db := initial.a, initial.x, initial.y, initial.db;
      programAddress, cycles, status := initial.pc, initial.cycles, initial.status;
      resPin, rdyPin := initial.resPin, initial.rdyPin;
    }

    /** `executeInterrupt`: BRK, COP and RTI; any other opcode is only logged. */
    method ExecuteInterrupt(opcode: uint8)
      requires Valid()
      modifies this, stack, bus
      ensures Valid()
      ensures State() == Interrupts.Execute(old(State()), opcode, vectors)
    {
      if opcode == Interrupts.BRK {
        Brk();
      } else if opcode == Interrupts.COP {
        Cop();
      } else if opcode == Interrupts.RTI {
        Rti();
      }
    }

    /** The BRK case of `executeInterrupt`. */
    method Brk()
      requires Valid()
      modifies this, stack, bus
      ensures Valid()
      ensures State() == Interrupts.Brk(old(State()), vectors)
    {
      ghost var m := State();
      var vectorAddress: Address;
      if status.emulationFlag {
        status := status.SetBreakFlag();
        vectorAddress := Address(0, vectors.eirq);
        cycles := cycles + 7;
        assert State() == Interrupts.Prepare(m, m.regs.status.SetBreakFlag(), 7);
      } else {
        vectorAddress := Address(0, vectors.nbrk);
        stack.Push8Bit(programAddress.bank);
        cycles := cycles + 8;
        assert State() == Interrupts.Prepare(m, m.regs.status, 8);
      }
      PushReturnAndJump(vectorAddress);
    }

    /**
     * The tail BRK shares between its modes: push the return offset and the status, set IRQ disable,
     * clear decimal mode and jump to the bank-0 address held at `vectorAddress`.
     */
    method PushReturnAndJump(vectorAddress: Address)
      requires Valid() && vectorAddress.bank == 0
      modifies stack, bus, this`status, this`programAddress
      ensures Valid()
      ensures State() == Interrupts.Enter(old(State()), vectorAddress.offset)
    {
      ghost var m := State();
      PushReturn();
      ghost var s := m.Stack().Push16(Wrap16(m.regs.pc.offset + 2)).Push8(m.regs.status.GetRegisterValue());
      assert stack.State() == s;
      status := status.SetInterruptDisableFlag().ClearDecimalFlag();
      programAddress := Address(0, bus.ReadTwoBytes(vectorAddress));
      ghost var v := Interrupts.Vector(m, vectorAddress.offset);
      assert v.sp == s.sp && v.mem == s.mem;
      assert Regs() == v.regs.(status := status);
    }

    /** The pushes BRK and COP share: the return offset (program offset + 2) and then the status byte. */
    method PushReturn()
      requires Valid()
      modifies stack, bus
      ensures Valid()
      ensures stack.State() == old(stack.State()).Push16(Wrap16(programAddress.offset + 2)).Push8(status.GetRegisterValue())
    {
      stack.Push16Bit(Wrap16(programAddress.offset + 2));
      stack.Push8Bit(status.GetRegisterValue());
    }

    /** The COP case of `executeInterrupt`. */
    method Cop()
      requires Valid()
      modifies this, stack, bus
      ensures Valid()
      ensures State() == Interrupts.Cop(old(State()), vectors)
    {
      if status.emulationFlag {
        CopEmulation();
      } else {
        CopNative();
      }
      status := status.ClearDecimalFlag();
    }

    /** The emulation-mode branch of COP: the return offset and status are pushed and 7 cycles charged. */
    method CopEmulation()
      requires Valid() && status.emulationFlag
      modifies this, stack, bus
      ensures Valid()
      ensures State() == Interrupts.Vector(Interrupts.Prepare(old(State()), old(status), 7), vectors.ecop)
    {
      Interrupts.VectorCharged(State(), 7, vectors.ecop);
      PushReturnAndVector(Address(0, vectors.ecop));
      cycles := cycles + 7;
    }

    /** The native-mode branch of COP: the program bank is pushed first and 8 cycles charged. */
    method CopNative()
      requires Valid() && !status.emulationFlag
      modifies this, stack, bus
      ensures Valid()
      ensures State() == Interrupts.Vector(Interrupts.Prepare(old(State()), old(status), 8), vectors.ncop)
    {
      ghost var m := State();
      stack.Push8Bit(programAddress.bank);
      ghost var p := State();
      assert p.(regs := p.regs.AddToCycles(8)) == Interrupts.Prepare(m, m.regs.status, 8);
      Interrupts.VectorCharged(p, 8, vectors.ncop);
      PushReturnAndVector(Address(0, vectors.ncop));
      cycles := cycles + 8;
    }

    /**
     * The statements COP repeats in both modes: push the return offset and the status, set IRQ
     * disable and jump to the bank-0 address held at `vectorAddress`.
     */
    method PushReturnAndVector(vectorAddress: Address)
      requires Valid() && vectorAddress.bank == 0
      modifies stack, bus, this`status, this`programAddress
      ensures Valid()
      ensures State() == Interrupts.Vector(old(State()), vectorAddress.offset)
    {
      ghost var m := State();
      PushReturn();
      ghost var s := m.Stack().Push16(Wrap16(m.regs.pc.offset + 2)).Push8(m.regs.status.GetRegisterValue());
      assert stack.State() == s;
      status := status.SetInterruptDisableFlag();
      programAddress := Address(0, bus.ReadTwoBytes(vectorAddress));
      ghost var v := Interrupts.Vector(m, vectorAddress.offset);
      assert v.sp == s.sp && v.mem == s.mem;
      assert Regs() == v.regs;
    }

    /** The RTI case of `executeInterrupt`. */
    method Rti()
      requires Valid()
      modifies this, stack
      ensures Valid()
      ensures State() == Interrupts.Rti(old(State()))
    {
      var p := stack.Pull8Bit();
      status := status.SetRegisterValue(p);
      if status.emulationFlag {
        var offset := stack.Pull16Bit();
        programAddress := Address(programAddress.bank, offset);
        cycles := cycles + 6;
      } else {
        var offset := stack.Pull16Bit();
        var bank := stack.Pull8Bit();
        programAddress := Address(bank, offset);
        cycles := cycles + 7;
      }
    }

    /**
     * The `while (mA != 0xFFFF)` loop of MVN (`forward`) and MVP: one byte per pass from `source`
     * to `destination`, both cursors moving, A counting down, 7 cycles per pass.
     */
    method MoveBlock(source: Address, destination: Address, forward: bool)
      requires Valid()
      modifies bus, this`a, this`cycles
      ensures Valid()
      ensures bus.mem == MiscOps.BlockMove(old(bus.mem), source, destination, old(a), forward)
      ensures a == 0xFFFF && cycles == old(cycles) + 7 * MiscOps.Passes(old(a))
    {
      var sourceAddress, destinationAddress := source, destination;
      while a != 0xFFFF
        invariant Valid()
        invariant MiscOps.BlockMove(bus.mem, sourceAddress, destinationAddress, a, forward)
               == MiscOps.BlockMove(old(bus.mem), source, destination, old(a), forward)
        invariant cycles == old(cycles) + 7 * (MiscOps.Passes(old(a)) - MiscOps.Passes(a))
        decreases MiscOps.Passes(a)
      {
        var toTransfer := bus.ReadByte(sourceAddress);
        bus.StoreByte(destinationAddress, toTransfer);
        sourceAddress := MiscOps.Step(sourceAddress, forward);
        destinationAddress := MiscOps.Step(destinationAddress, forward);
        a := MiscOps.Decrement(a);
        cycles := cycles + 7;
      }
    }

    /** `executeMisc`: XBA, STP, WAI, WDM, NOP, MVP and MVN; `operand` is where the instruction's operand bytes are. */
    method ExecuteMisc(opcode: uint8, operand: Address)
      requires Valid()
      modifies this, bus
      ensures Valid()
      ensures State() == MiscOps.Execute(old(State()), opcode, operand)
    {
      if opcode == MiscOps.XBA {
        Xba();
      } else if opcode == MiscOps.STP {
        programAddress := programAddress.IncrementOffsetBy(1);
        cycles := cycles + 3;
        resPin := true;
      } else if opcode == MiscOps.WAI {
        rdyPin := false;
        programAddress := programAddress.IncrementOffsetBy(1);
        cycles := cycles + 3;
      } else if opcode == MiscOps.WDM {
        programAddress := programAddress.IncrementOffsetBy(2);
        cycles := cycles + 2;
      } else if opcode == MiscOps.NOP {
        programAddress := programAddress.IncrementOffsetBy(1);
        cycles := cycles + 2;
      } else if opcode == MiscOps.MVP || opcode == MiscOps.MVN {
        Move(operand, opcode == MiscOps.MVN);
      }
    }

    /** The XBA case of `executeMisc`. */
    method Xba()
      requires Valid()
      modifies this
      ensures Valid()
      ensures State() == MiscOps.Xba(old(State()))
    {
      var lowerA := Low(a);
      var higherA := High(a);
      a := Word(higherA, lowerA);
      status := status.UpdateSignAndZeroFlagFrom8BitValue(higherA);
      programAddress := programAddress.IncrementOffsetBy(1);
      cycles := cycles + 3;
    }

    /** The MVN (`forward`) and MVP cases of `executeMisc`. */
    method Move(operand: Address, forward: bool)
      requires Valid()
      modifies this, bus
      ensures Valid()
      ensures State() == MiscOps.Move(old(State()), operand, forward)
    {
      var destinationBank := bus.ReadByte(operand);
      var sourceBank := bus.ReadByte(operand.IncrementOffsetBy(1));
      MoveBlock(Address(sourceBank, x), Address(destinationBank, y), forward);
      db := destinationBank;
      programAddress := programAddress.IncrementOffsetBy(3);
    }
  }
}
