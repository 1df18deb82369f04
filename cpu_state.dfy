/**
 * The part of the 65816 CPU state that the interrupt and miscellaneous opcodes touch.
 * The status register is kept as the bits of its byte, with the 65816 layout
 * (carry 0x01, zero 0x02, IRQ disable 0x04, decimal 0x08, break 0x10 in emulation mode, sign 0x80);
 * the emulation flag is held beside it.
 */
module CpuState {
  import opened Bytes
  import opened Addressing
  import opened Memory
  import opened CpuStack

  const ZERO_BIT := Bit(1)
  const IRQ_DISABLE_BIT := Bit(2)
  const DECIMAL_BIT := Bit(3)
  const BREAK_BIT := Bit(4)
  const SIGN_BIT := Bit(7)

  datatype CpuStatus = CpuStatus(emulationFlag: bool, register: Bits) {

    predicate BreakFlag() { register.Has(BREAK_BIT) }
    predicate InterruptDisableFlag() { register.Has(IRQ_DISABLE_BIT) }
    predicate DecimalFlag() { register.Has(DECIMAL_BIT) }
    predicate SignFlag() { register.Has(SIGN_BIT) }
    predicate ZeroFlag() { register.Has(ZERO_BIT) }

    /** `getRegisterValue`: the byte pushed by interrupts. */
    function GetRegisterValue(): uint8 { register.Value() }

    /** `setRegisterValue`: every flag of the byte taken from `v`; the emulation flag is not part of it. */
    function SetRegisterValue(v: uint8): CpuStatus
    {
      CpuStatus(emulationFlag, FromValue(v))
    }

    function SetBreakFlag(): CpuStatus
    {
      CpuStatus(emulationFlag, register.Or(BREAK_BIT))
    }

    function SetInterruptDisableFlag(): CpuStatus
    {
      CpuStatus(emulationFlag, register.Or(IRQ_DISABLE_BIT))
    }

    function ClearDecimalFlag(): CpuStatus
    {
      CpuStatus(emulationFlag, register.Without(DECIMAL_BIT))
    }

    /** Sign from bit 7 of `v`, zero when `v` is 0. */
    function UpdateSignAndZeroFlagFrom8BitValue(v: uint8): CpuStatus
    {
      var sign := if v >= 0x80 then SIGN_BIT else NONE;
      var zero := if v == 0 then ZERO_BIT else NONE;
      CpuStatus(emulationFlag, register.Without(SIGN_BIT.Or(ZERO_BIT)).Or(sign).Or(zero))
    }
  }

  /** The byte read back after `setRegisterValue(v)` is `v`, and the byte set from a status read back is that status. */
  lemma RegisterValueRoundTrip(st: CpuStatus, v: uint8)
    ensures st.SetRegisterValue(v).GetRegisterValue() == v
    ensures st.SetRegisterValue(st.GetRegisterValue()) == st
    ensures st.SetRegisterValue(v).emulationFlag == st.emulationFlag
  {
    ValueOfBits(v);
    BitsOfValue(st.register);
  }

  /** `setBreakFlag` sets the break bit and leaves every other bit and the emulation flag as they were. */
  lemma BreakFlagSet(st: CpuStatus)
    ensures st.SetBreakFlag().BreakFlag() && st.SetBreakFlag().emulationFlag == st.emulationFlag
    ensures st.SetBreakFlag().register.Without(BREAK_BIT) == st.register.Without(BREAK_BIT)
  {
  }

  /** `setInterruptDisableFlag` sets the IRQ-disable bit and leaves every other bit and the emulation flag as they were. */
  lemma InterruptDisableSet(st: CpuStatus)
    ensures st.SetInterruptDisableFlag().InterruptDisableFlag()
    ensures st.SetInterruptDisableFlag().emulationFlag == st.emulationFlag
    ensures st.SetInterruptDisableFlag().register.Without(IRQ_DISABLE_BIT) == st.register.Without(IRQ_DISABLE_BIT)
  {
  }

  /** `clearDecimalFlag` clears the decimal bit and leaves every other bit and the emulation flag as they were. */
  lemma DecimalCleared(st: CpuStatus)
    ensures !st.ClearDecimalFlag().DecimalFlag() && st.ClearDecimalFlag().emulationFlag == st.emulationFlag
    ensures st.ClearDecimalFlag().register.Without(DECIMAL_BIT) == st.register.Without(DECIMAL_BIT)
  {
  }

  /** The sign flag becomes bit 7 of `v`, the zero flag whether `v` is 0; nothing else changes. */
  lemma SignAndZero(st: CpuStatus, v: uint8)
    ensures var r := st.UpdateSignAndZeroFlagFrom8BitValue(v);
      && r.SignFlag() == (v >= 0x80) && r.ZeroFlag() == (v == 0)
      && r.emulationFlag == st.emulationFlag
      && r.register.Without(SIGN_BIT.Or(ZERO_BIT)) == st.register.Without(SIGN_BIT.Or(ZERO_BIT))
  {
  }

  /** Registers, program address, cycle counter, status and the RES/RDY pins. */
  datatype Registers = Registers(
    a: uint16, x: uint16, y: uint16, db: uint8,
    pc: Address, cycles: nat, status: CpuStatus,
    resPin: bool, rdyPin: bool)
  {
    /** `addToProgramAddress(n)`: the offset moves on by `n` within the program bank. */
    function AddToProgramAddress(n: uint16): (r: Registers)
      ensures r.pc.bank == pc.bank && r.pc.offset == (pc.offset + n) % 0x1_0000
      ensures r.(pc := pc) == this
    {
      this.(pc := pc.IncrementOffsetBy(n))
    }

    /** `addToCycles(n)`: only the cycle counter moves, by exactly `n`. */
    function AddToCycles(n: nat): (r: Registers)
      ensures r.cycles == cycles + n
      ensures r.(cycles := cycles) == this
    {
      this.(cycles := cycles + n)
    }
  }

  /** Interrupt vector locations in bank 0, as configured for the machine. */
  datatype Vectors = Vectors(eirq: uint16, nbrk: uint16, ecop: uint16, ncop: uint16)

  /** The whole machine as an opcode sees it: registers, stack cursor and bus contents. */
  datatype Machine = Machine(regs: Registers, sp: Address, mem: seq<uint8>) {

    ghost predicate Valid() { sp.bank == 0 && IsImage(mem) }

    function Stack(): StackState { StackState(sp, mem) }

    /** The machine with its stack replaced by `s`. */
    function WithStack(s: StackState): Machine { Machine(regs, s.sp, s.mem) }
  }
}
