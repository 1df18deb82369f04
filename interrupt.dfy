/** The interrupt opcodes BRK (0x00), COP (0x02) and RTI (0x40), as state transformers of the machine. */
module Interrupts {
  import opened Bytes
  import opened Addressing
  import opened Memory
  import opened CpuStack
  import opened CpuState

  const BRK: uint8 := 0x00
  const COP: uint8 := 0x02
  const RTI: uint8 := 0x40

  /**
   * The part of BRK and COP that depends on the mode: the status `pushed` is installed, `cost`
   * cycles are charged and, in native mode only, the program bank is pushed.
   */
  function Prepare(m: Machine, pushed: CpuStatus, cost: nat): (r: Machine)
    requires m.Valid()
    ensures r.Valid()
  {
    var regs := m.regs.(status := pushed).AddToCycles(cost);
    if pushed.emulationFlag then m.(regs := regs)
    else Machine(regs, m.Stack().Push8(m.regs.pc.bank).sp, m.Stack().Push8(m.regs.pc.bank).mem)
  }

  /**
   * The part BRK and COP share: push the return offset (program offset + 2, as a 16-bit value)
   * and the status byte, set the IRQ-disable flag and jump to the bank-0 address held in the
   * vector at bank 0, offset `vector`.
   */
  function Vector(m: Machine, vector: uint16): (r: Machine)
    requires m.Valid()
    ensures r.Valid()
  {
    var s := m.Stack().Push16(Wrap16(m.regs.pc.offset + 2)).Push8(m.regs.status.GetRegisterValue());
    var status := m.regs.status.SetInterruptDisableFlag();
    Machine(m.regs.(status := status, pc := Address(0, ReadWord(s.mem, Address(0, vector)))), s.sp, s.mem)
  }

  /** Charging cycles before `Vector` is the same as charging them after. */
  lemma VectorCharged(m: Machine, cost: nat, vector: uint16)
    requires m.Valid()
    ensures Vector(m.(regs := m.regs.AddToCycles(cost)), vector)
         == Vector(m, vector).(regs := Vector(m, vector).regs.AddToCycles(cost))
  {
  }

  /** `clearDecimalFlag` applied to the machine's status. */
  function ClearDecimal(m: Machine): Machine
  {
    m.(regs := m.regs.(status := m.regs.status.ClearDecimalFlag()))
  }

  /** Interrupt entry: `Vector`, then decimal mode cleared. */
  function Enter(m: Machine, vector: uint16): (r: Machine)
    requires m.Valid()
    ensures r.Valid()
  {
    ClearDecimal(Vector(m, vector))
  }

  /** BRK: in emulation mode the break flag is set before the status is pushed. */
  function Brk(m: Machine, vec: Vectors): (r: Machine)
    requires m.Valid()
    ensures r.Valid()
  {
    var st := m.regs.status;
    if st.emulationFlag then Enter(Prepare(m, st.SetBreakFlag(), 7), vec.eirq)
    else Enter(Prepare(m, st, 8), vec.nbrk)
  }

  /** COP: the same frames as BRK, through its own vectors, never touching the break flag. */
  function Cop(m: Machine, vec: Vectors): (r: Machine)
    requires m.Valid()
    ensures r.Valid()
  {
    var st := m.regs.status;
    if st.emulationFlag then Enter(Prepare(m, st, 7), vec.ecop)
    else Enter(Prepare(m, st, 8), vec.ncop)
  }

  /** RTI: pull the status; then the offset (emulation, bank kept) or the offset and then the bank (native). */
  function Rti(m: Machine): (r: Machine)
    requires m.Valid()
    ensures r.Valid() && r.mem == m.mem
  {
    var (p, s1) := m.Stack().Pull8();
    var status := m.regs.status.SetRegisterValue(p);
    var (offset, s2) := s1.Pull16();
    if status.emulationFlag then
      Machine(m.regs.(status := status, pc := Address(m.regs.pc.bank, offset)).AddToCycles(6), s2.sp, s2.mem)
    else
      var (bank, s3) := s2.Pull8();
      Machine(m.regs.(status := status, pc := Address(bank, offset)).AddToCycles(7), s3.sp, s3.mem)
  }

  /** `executeInterrupt`: any other opcode is only logged. */
  function Execute(m: Machine, opcode: uint8, vec: Vectors): (r: Machine)
    requires m.Valid()
    ensures r.Valid()
  {
    if opcode == BRK then Brk(m, vec)
    else if opcode == COP then Cop(m, vec)
    else if opcode == RTI then Rti(m)
    else m
  }

  /** The entry frame of an interrupt: bank (native mode only), return offset high, low, status. */
  function Frame(m: Machine, pushed: CpuStatus): seq<uint8>
  {
    var ret := Wrap16(m.regs.pc.offset + 2);
    (if pushed.emulationFlag then [] else [m.regs.pc.bank]) + [High(ret), Low(ret), pushed.GetRegisterValue()]
  }

  /**
   * The stack after `Prepare` and then `Enter`: the frame (3 bytes in emulation mode, 4 in native
   * mode) pushed one byte at a time onto the stack as it was.
   */
  lemma {:induction false} EnterPushesFrame(m: Machine, pushed: CpuStatus, cost: nat, vector: uint16)
    requires m.Valid()
    ensures |Frame(m, pushed)| == (if pushed.emulationFlag then 3 else 4)
    ensures Enter(Prepare(m, pushed, cost), vector).Stack() == PushAll(m.Stack(), Frame(m, pushed))
  {
    var ret := Wrap16(m.regs.pc.offset + 2);
    var p := pushed.GetRegisterValue();
    var s0 := m.Stack();
    var tail := [High(ret), Low(ret), p];
    var s1 := if pushed.emulationFlag then s0 else s0.Push8(m.regs.pc.bank);
    assert Prepare(m, pushed, cost).Stack() == s1;
    assert PushAll(s1, tail) == PushAll(s1.Push8(High(ret)), tail[1..]);
    assert tail[1..][1..] == [p];
    assert PushAll(s1.Push8(High(ret)), tail[1..]) == PushAll(s1.Push16(ret), [p]);
    assert PushAll(s1.Push16(ret), [p]) == PushAll(s1.Push16(ret).Push8(p), []);
    if !pushed.emulationFlag {
      assert Frame(m, pushed) == [m.regs.pc.bank] + tail;
      assert PushAll(s0, [m.regs.pc.bank] + tail) == PushAll(s1, tail);
    } else {
      assert Frame(m, pushed) == tail;
    }
  }

  /**
   * The registers after `Prepare` and then `Enter`: the program address is bank 0 at the word read
   * from the vector after the pushes; IRQ disable is set, decimal cleared, every other status bit
   * as in `pushed`; the cost is charged and A, X, Y and DB are kept.
   */
  lemma EnterRegisters(m: Machine, pushed: CpuStatus, cost: nat, vector: uint16)
    requires m.Valid()
    ensures var r := Enter(Prepare(m, pushed, cost), vector);
      && r.regs.pc == Address(0, ReadWord(r.mem, Address(0, vector)))
      && r.regs.cycles == m.regs.cycles + cost
      && r.regs.status == pushed.SetInterruptDisableFlag().ClearDecimalFlag()
      && (r.regs.a, r.regs.x, r.regs.y, r.regs.db) == (m.regs.a, m.regs.x, m.regs.y, m.regs.db)
  {
  }

  /**
   * What the status becomes on entry: IRQ disable set, decimal clear, the emulation flag and the
   * break flag as in `pushed`.
   */
  lemma EntryStatus(pushed: CpuStatus)
    ensures var st := pushed.SetInterruptDisableFlag().ClearDecimalFlag();
      && st.InterruptDisableFlag() && !st.DecimalFlag()
      && st.BreakFlag() == pushed.BreakFlag() && st.emulationFlag == pushed.emulationFlag
  {
  }

  /**
   * BRK in emulation mode sets the break flag, pushes 3 bytes (return offset high, low, status with
   * break set), charges 7 cycles and vectors through EIRQ into bank 0.
   */
  lemma BrkEmulationFrame(m: Machine, vec: Vectors)
    requires m.Valid() && m.regs.status.emulationFlag
    ensures var r := Brk(m, vec);
      var ret := Wrap16(m.regs.pc.offset + 2);
      && r.Stack() == PushAll(m.Stack(), [High(ret), Low(ret), m.regs.status.SetBreakFlag().GetRegisterValue()])
      && r.regs.cycles == m.regs.cycles + 7
      && r.regs.pc == Address(0, ReadWord(r.mem, Address(0, vec.eirq)))
      && r.regs.status == m.regs.status.SetBreakFlag().SetInterruptDisableFlag().ClearDecimalFlag()
  {
    var pushed := m.regs.status.SetBreakFlag();
    var ret := Wrap16(m.regs.pc.offset + 2);
    assert pushed.emulationFlag;
    assert Brk(m, vec) == Enter(Prepare(m, pushed, 7), vec.eirq);
    EnterPushesFrame(m, pushed, 7, vec.eirq);
    EnterRegisters(m, pushed, 7, vec.eirq);
    assert Frame(m, pushed) == [High(ret), Low(ret), pushed.GetRegisterValue()];
  }

  /**
   * BRK in native mode pushes 4 bytes (program bank, return offset high, low, status), charges 8
   * cycles and vectors through NBRK into bank 0.
   */
  lemma BrkNativeFrame(m: Machine, vec: Vectors)
    requires m.Valid() && !m.regs.status.emulationFlag
    ensures var r := Brk(m, vec);
      var ret := Wrap16(m.regs.pc.offset + 2);
      && r.Stack() == PushAll(m.Stack(), [m.regs.pc.bank, High(ret), Low(ret), m.regs.status.GetRegisterValue()])
      && r.regs.cycles == m.regs.cycles + 8
      && r.regs.pc == Address(0, ReadWord(r.mem, Address(0, vec.nbrk)))
      && r.regs.status == m.regs.status.SetInterruptDisableFlag().ClearDecimalFlag()
  {
    EnterPushesFrame(m, m.regs.status, 8, vec.nbrk);
    EnterRegisters(m, m.regs.status, 8, vec.nbrk);
  }

  /**
   * COP pushes the same frames as BRK without touching the break flag, through ECOP with 7 cycles
   * in emulation mode and NCOP with 8 cycles in native mode.
   */
  lemma CopFrame(m: Machine, vec: Vectors)
    requires m.Valid()
    ensures var r := Cop(m, vec);
      var e := m.regs.status.emulationFlag;
      && r.Stack() == PushAll(m.Stack(), Frame(m, m.regs.status))
      && r.regs.cycles == m.regs.cycles + (if e then 7 else 8)
      && r.regs.pc == Address(0, ReadWord(r.mem, Address(0, if e then vec.ecop else vec.ncop)))
      && r.regs.status == m.regs.status.SetInterruptDisableFlag().ClearDecimalFlag()
  {
    var e := m.regs.status.emulationFlag;
    EnterPushesFrame(m, m.regs.status, if e then 7 else 8, if e then vec.ecop else vec.ncop);
    EnterRegisters(m, m.regs.status, if e then 7 else 8, if e then vec.ecop else vec.ncop);
  }

  /** RTI first pulls the status byte from one above the cursor; the emulation flag is not part of it. */
  lemma RtiStatus(m: Machine)
    requires m.Valid()
    ensures Rti(m).regs.status == m.regs.status.SetRegisterValue(Read(m.mem, m.sp.IncrementOffsetBy(1)))
    ensures (Rti(m).regs.a, Rti(m).regs.x, Rti(m).regs.y, Rti(m).regs.db) == (m.regs.a, m.regs.x, m.regs.y, m.regs.db)
  {
  }

  /**
   * RTI in emulation mode then pulls a 16-bit offset (low byte first) and keeps the program bank,
   * charging 6 cycles.
   */
  lemma RtiEmulationPulls(m: Machine)
    requires m.Valid() && m.regs.status.emulationFlag
    ensures var r := Rti(m);
      && r.regs.pc == Address(m.regs.pc.bank, Word(Read(m.mem, m.sp.IncrementOffsetBy(2)), Read(m.mem, m.sp.IncrementOffsetBy(3))))
      && r.sp == m.sp.IncrementOffsetBy(3)
      && r.regs.cycles == m.regs.cycles + 6
  {
    Pull16Reads(m.Stack().Pull8().1);
    OffsetArithmetic(m.sp, 1, 1);
    OffsetArithmetic(m.sp, 1, 2);
  }

  /** RTI in native mode pulls the offset (low byte first) and then the bank, charging 7 cycles. */
  lemma RtiNativePulls(m: Machine)
    requires m.Valid() && !m.regs.status.emulationFlag
    ensures var r := Rti(m);
      && r.regs.pc == Address(Read(m.mem, m.sp.IncrementOffsetBy(4)),
                              Word(Read(m.mem, m.sp.IncrementOffsetBy(2)), Read(m.mem, m.sp.IncrementOffsetBy(3))))
      && r.sp == m.sp.IncrementOffsetBy(4)
      && r.regs.cycles == m.regs.cycles + 7
  {
    Pull16Reads(m.Stack().Pull8().1);
    OffsetArithmetic(m.sp, 1, 1);
    OffsetArithmetic(m.sp, 1, 2);
    OffsetArithmetic(m.sp, 3, 1);
  }

  /** Pulling `n` bytes' worth after pushing a frame of length `len` reads frame byte `len - n`. */
  lemma FrameByte(s: StackState, bytes: seq<uint8>, n: nat)
    requires s.Valid() && 0 < n <= |bytes| < 0x1_0000
    ensures PushAll(s, bytes).sp.IncrementOffsetBy(n) == s.sp.DecrementOffsetBy(|bytes| - n)
    ensures Read(PushAll(s, bytes).mem, PushAll(s, bytes).sp.IncrementOffsetBy(n)) == bytes[|bytes| - n]
  {
    PushAllCursor(s, bytes);
    PushAllPlaces(s, bytes, |bytes| - n);
    OffsetArithmetic(s.sp, |bytes|, n);
  }

  /**
   * RTI in emulation mode on a stack that holds a freshly pushed 3-byte frame pulls that frame back
   * and returns the cursor to where it was.
   */
  lemma RtiAfterEmulationFrame(b: Machine, s: StackState, frame: seq<uint8>)
    requires b.Valid() && s.Valid() && b.regs.status.emulationFlag
    requires |frame| == 3 && b.Stack() == PushAll(s, frame)
    ensures var r := Rti(b);
      && r.sp == s.sp
      && r.regs.status == b.regs.status.SetRegisterValue(frame[2])
      && r.regs.pc == Address(b.regs.pc.bank, Word(frame[1], frame[0]))
      && r.regs.cycles == b.regs.cycles + 6
  {
    assert s.sp.DecrementOffsetBy(0) == s.sp;
    FrameByte(s, frame, 1);
    FrameByte(s, frame, 2);
    FrameByte(s, frame, 3);
    var pushed := PushAll(s, frame);
    assert b.sp == pushed.sp && b.mem == pushed.mem;
    RtiEmulationOver(b, frame[2], frame[1], frame[0], s.sp);
  }

  /** RTI in emulation mode over the three bytes `p`, `lo`, `hi` just above the cursor. */
  lemma RtiEmulationOver(b: Machine, p: uint8, lo: uint8, hi: uint8, sp: Address)
    requires b.Valid() && b.regs.status.emulationFlag
    requires Read(b.mem, b.sp.IncrementOffsetBy(1)) == p
    requires Read(b.mem, b.sp.IncrementOffsetBy(2)) == lo
    requires Read(b.mem, b.sp.IncrementOffsetBy(3)) == hi
    requires b.sp.IncrementOffsetBy(3) == sp
    ensures var r := Rti(b);
      && r.sp == sp
      && r.regs.status == b.regs.status.SetRegisterValue(p)
      && r.regs.pc == Address(b.regs.pc.bank, Word(lo, hi))
      && r.regs.cycles == b.regs.cycles + 6
  {
    RtiStatus(b);
    RtiEmulationPulls(b);
  }

  /**
   * RTI in native mode on a stack that holds a freshly pushed 4-byte frame pulls that frame back
   * and returns the cursor to where it was.
   */
  lemma RtiAfterNativeFrame(b: Machine, s: StackState, frame: seq<uint8>)
    requires b.Valid() && s.Valid() && !b.regs.status.emulationFlag
    requires |frame| == 4 && b.Stack() == PushAll(s, frame)
    ensures var r := Rti(b);
      && r.sp == s.sp
      && r.regs.status == b.regs.status.SetRegisterValue(frame[3])
      && r.regs.pc == Address(frame[0], Word(frame[2], frame[1]))
      && r.regs.cycles == b.regs.cycles + 7
  {
    RtiStatus(b);
    RtiNativePulls(b);
    assert s.sp.DecrementOffsetBy(0) == s.sp;
    FrameByte(s, frame, 1);
    FrameByte(s, frame, 2);
    FrameByte(s, frame, 3);
    FrameByte(s, frame, 4);
  }

  /**
   * In native mode, BRK followed at once by RTI restores the stack pointer, returns to the old bank at
   * the old offset + 2, and restores the status byte that BRK pushed (the one in force before BRK).
   */
  lemma {:induction false} BrkThenRtiNative(m: Machine, vec: Vectors)
    requires m.Valid() && !m.regs.status.emulationFlag
    ensures var r := Rti(Brk(m, vec));
      && r.sp == m.sp
      && r.regs.pc == Address(m.regs.pc.bank, Wrap16(m.regs.pc.offset + 2))
      && r.regs.status == m.regs.status
      && r.regs.cycles == m.regs.cycles + 15
  {
    var st := m.regs.status;
    var ret := Wrap16(m.regs.pc.offset + 2);
    var frame := [m.regs.pc.bank, High(ret), Low(ret), st.GetRegisterValue()];
    BrkNativeFrame(m, vec);
    var b := Brk(m, vec);
    DecimalCleared(st.SetInterruptDisableFlag());
    InterruptDisableSet(st);
    RtiAfterNativeFrame(b, m.Stack(), frame);
    WordOfBytes(ret);
    RegisterValueRoundTrip(b.regs.status, st.GetRegisterValue());
    RegisterValueRoundTrip(st, st.GetRegisterValue());
  }

  /**
   * In emulation mode, BRK followed at once by RTI restores the stack pointer and returns to bank 0 at
   * the old offset + 2 with the status BRK pushed, that is, the old status with the break flag set.
   */
  lemma {:induction false} BrkThenRtiEmulation(m: Machine, vec: Vectors)
    requires m.Valid() && m.regs.status.emulationFlag
    ensures var r := Rti(Brk(m, vec));
      && r.sp == m.sp
      && r.regs.pc == Address(0, Wrap16(m.regs.pc.offset + 2))
      && r.regs.status == m.regs.status.SetBreakFlag()
      && r.regs.cycles == m.regs.cycles + 13
  {
    var pushed := m.regs.status.SetBreakFlag();
    var ret := Wrap16(m.regs.pc.offset + 2);
    var frame := [High(ret), Low(ret), pushed.GetRegisterValue()];
    BrkEmulationFrame(m, vec);
    var b := Brk(m, vec);
    DecimalCleared(pushed.SetInterruptDisableFlag());
    InterruptDisableSet(pushed);
    BreakFlagSet(m.regs.status);
    RtiAfterEmulationFrame(b, m.Stack(), frame);
    WordOfBytes(ret);
    RegisterValueRoundTrip(b.regs.status, pushed.GetRegisterValue());
    RegisterValueRoundTrip(pushed, pushed.GetRegisterValue());
  }

  /** An opcode other than BRK, COP and RTI changes nothing. */
  lemma OtherOpcodeUnchanged(m: Machine, opcode: uint8, vec: Vectors)
    requires m.Valid() && opcode != BRK && opcode != COP && opcode != RTI
    ensures Execute(m, opcode, vec) == m
  {
  }
}
