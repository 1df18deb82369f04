/** The miscellaneous opcodes XBA, STP, WAI, WDM, NOP and the block moves MVP and MVN. */
module MiscOps {
  import opened Bytes
  import opened Addressing
  import opened Memory
  import opened CpuState

  const XBA: uint8 := 0xEB
  const STP: uint8 := 0xDB
  const WAI: uint8 := 0xCB
  const WDM: uint8 := 0x42
  const NOP: uint8 := 0xEA
  const MVP: uint8 := 0x44
  const MVN: uint8 := 0x54

  /** Number of passes a block move makes from accumulator value `a`: it stops when A reaches 0xFFFF. */
  function Passes(a: uint16): uint16 { (a + 1) % 0x1_0000 }

  /** `mA--` on the 16-bit accumulator. */
  function Decrement(a: uint16): (r: uint16)
    ensures a != 0xFFFF ==> Passes(r) == Passes(a) - 1
  {
    (a - 1) % 0x1_0000
  }

  /** A block-move cursor after one pass: up for MVN, down for MVP. */
  function Step(c: Address, forward: bool): Address
  {
    if forward then c.IncrementOffsetBy(1) else c.DecrementOffsetBy(1)
  }

  /** The `while (mA != 0xFFFF)` loop: copy one byte, move both cursors, decrement A. */
  function BlockMove(mem: seq<uint8>, src: Address, dst: Address, a: uint16, forward: bool): (r: seq<uint8>)
    requires IsImage(mem)
    ensures IsImage(r)
    decreases Passes(a)
  {
    if a == 0xFFFF then mem
    else BlockMove(Write(mem, dst, Read(mem, src)), Step(src, forward), Step(dst, forward), Decrement(a), forward)
  }

  /** XBA: swap the bytes of A; sign and zero follow the new low byte, the old high byte. */
  function Xba(m: Machine): (r: Machine)
    requires m.Valid()
    ensures r.Valid()
  {
    var lowerA := Low(m.regs.a);
    var higherA := High(m.regs.a);
    m.(regs := m.regs.(a := Word(higherA, lowerA),
                       status := m.regs.status.UpdateSignAndZeroFlagFrom8BitValue(higherA))
                     .AddToProgramAddress(1).AddToCycles(3))
  }

  /** MVN (forward) or MVP (backward) with the bank operands read at `operand` and the byte after it. */
  function Move(m: Machine, operand: Address, forward: bool): (r: Machine)
    requires m.Valid()
    ensures r.Valid()
  {
    var destinationBank := Read(m.mem, operand);
    var sourceBank := Read(m.mem, operand.IncrementOffsetBy(1));
    var mem := BlockMove(m.mem, Address(sourceBank, m.regs.x), Address(destinationBank, m.regs.y), m.regs.a, forward);
    var regs := m.regs.(a := 0xFFFF, db := destinationBank).AddToCycles(7 * Passes(m.regs.a)).AddToProgramAddress(3);
    Machine(regs, m.sp, mem)
  }

  /** `executeMisc` on `opcode`; `operand` is where the instruction's operand bytes are. Other opcodes are only logged. */
  function Execute(m: Machine, opcode: uint8, operand: Address): (r: Machine)
    requires m.Valid()
    ensures r.Valid()
  {
    var regs := m.regs;
    if opcode == XBA then
      Xba(m)
    else if opcode == STP then
      m.(regs := regs.AddToProgramAddress(1).AddToCycles(3).(resPin := true))
    else if opcode == WAI then
      m.(regs := regs.(rdyPin := false).AddToProgramAddress(1).AddToCycles(3))
    else if opcode == WDM then
      m.(regs := regs.AddToProgramAddress(2).AddToCycles(2))
    else if opcode == NOP then
      m.(regs := regs.AddToProgramAddress(1).AddToCycles(2))
    else if opcode == MVP then
      Move(m, operand, false)
    else if opcode == MVN then
      Move(m, operand, true)
    else
      m
  }

  /**
   * XBA swaps the two bytes of A, so doing it twice restores A; sign and zero come from the new low
   * byte (the old high byte) and every other status bit is kept; the program address moves on by 1,
   * the cycles by 3, and nothing else changes.
   */
  lemma XbaSwaps(m: Machine, operand: Address)
    requires m.Valid()
    ensures var r := Execute(m, XBA, operand);
      && Low(r.regs.a) == High(m.regs.a) && High(r.regs.a) == Low(m.regs.a)
      && Execute(r, XBA, operand).regs.a == m.regs.a
      && r.regs.status.SignFlag() == (High(m.regs.a) >= 0x80)
      && r.regs.status.ZeroFlag() == (High(m.regs.a) == 0)
      && r.regs.pc == m.regs.pc.IncrementOffsetBy(1) && r.regs.cycles == m.regs.cycles + 3
      && r.regs.status == m.regs.status.UpdateSignAndZeroFlagFrom8BitValue(High(m.regs.a))
      && (r.regs.x, r.regs.y, r.regs.db, r.sp, r.mem) == (m.regs.x, m.regs.y, m.regs.db, m.sp, m.mem)
      && (r.regs.resPin, r.regs.rdyPin) == (m.regs.resPin, m.regs.rdyPin)
  {
    WordOfBytes(m.regs.a);
  }

  /** STP raises RES and WAI lowers RDY; each moves the program address on by 1 and adds 3 cycles, and nothing else changes. */
  lemma StopAndWait(m: Machine, operand: Address)
    requires m.Valid()
    ensures var r := Execute(m, STP, operand);
      r == m.(regs := m.regs.(resPin := true, pc := m.regs.pc.IncrementOffsetBy(1), cycles := m.regs.cycles + 3))
    ensures var r := Execute(m, WAI, operand);
      r == m.(regs := m.regs.(rdyPin := false, pc := m.regs.pc.IncrementOffsetBy(1), cycles := m.regs.cycles + 3))
  {
  }

  /** WDM moves the program address on by 2 and NOP by 1, each adding 2 cycles; nothing else changes. */
  lemma NoOperation(m: Machine, operand: Address)
    requires m.Valid()
    ensures Execute(m, WDM, operand) == m.(regs := m.regs.(pc := m.regs.pc.IncrementOffsetBy(2), cycles := m.regs.cycles + 2))
    ensures Execute(m, NOP, operand) == m.(regs := m.regs.(pc := m.regs.pc.IncrementOffsetBy(1), cycles := m.regs.cycles + 2))
  {
  }

  /** An opcode outside the miscellaneous group changes nothing. */
  lemma OtherOpcodeUnchanged(m: Machine, opcode: uint8, operand: Address)
    requires m.Valid() && opcode !in {XBA, STP, WAI, WDM, NOP, MVP, MVN}
    ensures Execute(m, opcode, operand) == m
  {
  }

  /**
   * On exit from MVN or MVP: A is 0xFFFF, DB is the destination bank (the first operand byte),
   * the program address has moved on by 3, 7 cycles were charged per pass, (A + 1) mod 65536 passes
   * were made, and X, Y and the stack are untouched.
   */
  lemma MoveExit(m: Machine, opcode: uint8, operand: Address)
    requires m.Valid() && (opcode == MVN || opcode == MVP)
    ensures var r := Execute(m, opcode, operand);
      && r.regs.a == 0xFFFF
      && r.regs.db == Read(m.mem, operand)
      && r.regs.pc == m.regs.pc.IncrementOffsetBy(3)
      && r.regs.cycles == m.regs.cycles + 7 * ((m.regs.a + 1) % 0x1_0000)
      && (r.regs.x, r.regs.y, r.sp, r.regs.status) == (m.regs.x, m.regs.y, m.sp, m.regs.status)
  {
  }

  /** The address `i` passes from cursor `c`: `c + i` for MVN, `c - i` for MVP, wrapping within the bank. */
  function Cursor(c: Address, i: int, forward: bool): Address
  {
    Address(c.bank, if forward then (c.offset + i) % 0x1_0000 else (c.offset - i) % 0x1_0000)
  }

  /** How many passes from `c` the address `b` is reached, when it lies in `c`'s bank. */
  function Distance(c: Address, b: Address, forward: bool): uint16
  {
    if forward then (b.offset - c.offset) % 0x1_0000 else (c.offset - b.offset) % 0x1_0000
  }

  /** `b` is one of the first `n` addresses a cursor starting at `c` visits. */
  predicate Covers(c: Address, n: int, b: Address, forward: bool)
  {
    b.bank == c.bank && Distance(c, b, forward) < n
  }

  lemma CursorCovered(c: Address, n: int, i: int, forward: bool)
    requires 0 <= i < n <= 0x1_0000
    ensures Covers(c, n, Cursor(c, i, forward), forward)
    ensures Distance(c, Cursor(c, i, forward), forward) == i
  {
  }

  /** One step of the cursor is the cursor one pass further on. */
  lemma CursorStep(c: Address, i: int, forward: bool)
    requires 0 <= i < 0x1_0000 - 1
    ensures Cursor(Step(c, forward), i, forward) == Cursor(c, i + 1, forward)
  {
    var o: int := c.offset;
    if forward {
      if o + 1 < 0x1_0000 {
        assert Step(c, forward).offset == o + 1;
      } else {
        assert Step(c, forward).offset == 0;
      }
    } else {
      if o >= 1 {
        assert Step(c, forward).offset == o - 1;
      } else {
        assert Step(c, forward).offset == 0xFFFF;
      }
    }
  }

  /** After one step, every other address of the bank is one pass nearer, and the start itself is the farthest. */
  lemma DistanceStep(c: Address, b: Address, forward: bool)
    requires b.bank == c.bank
    ensures b != c ==> Distance(Step(c, forward), b, forward) == Distance(c, b, forward) - 1
    ensures b == c ==> Distance(Step(c, forward), b, forward) == 0x1_0000 - 1
  {
    var o: int := c.offset;
    var s: int := Step(c, forward).offset;
    if forward {
      if o + 1 < 0x1_0000 {
        assert s == o + 1;
      } else {
        assert s == 0;
      }
      if b.offset > o {
        assert Distance(c, b, forward) == b.offset - o;
      } else if b.offset < o {
        assert Distance(c, b, forward) == b.offset - o + 0x1_0000;
      }
    } else {
      if o >= 1 {
        assert s == o - 1;
      } else {
        assert s == 0xFFFF;
      }
      if b.offset < o {
        assert Distance(c, b, forward) == o - b.offset;
      } else if b.offset > o {
        assert Distance(c, b, forward) == o - b.offset + 0x1_0000;
      }
    }
  }

  /** No source address of the move lies in its destination range. */
  predicate Disjoint(src: Address, dst: Address, n: int, forward: bool)
  {
    forall i :: 0 <= i < n ==> !Covers(dst, n, Cursor(src, i, forward), forward)
  }

  /** A block move of `Passes(a)` bytes changes no address outside its destination range. */
  lemma {:induction false} BlockMoveKeeps(mem: seq<uint8>, src: Address, dst: Address, a: uint16, forward: bool, b: Address)
    requires IsImage(mem)
    requires !Covers(dst, Passes(a), b, forward)
    ensures Read(BlockMove(mem, src, dst, a, forward), b) == Read(mem, b)
    decreases Passes(a)
  {
    if a != 0xFFFF {
      var mem1 := Write(mem, dst, Read(mem, src));
      assert BlockMove(mem, src, dst, a, forward)
          == BlockMove(mem1, Step(src, forward), Step(dst, forward), Decrement(a), forward);
      assert dst == Cursor(dst, 0, forward);
      assert b != dst;
      if b.bank == dst.bank {
        DistanceStep(dst, b, forward);
      }
      BlockMoveKeeps(mem1, Step(src, forward), Step(dst, forward), Decrement(a), forward, b);
      WriteKeeps(mem, dst, Read(mem, src), b);
    }
  }

  /**
   * When the source and destination ranges do not overlap, a block move of `Passes(a)` bytes leaves
   * at destination `dst ± i` the byte that was at source `src ± i`, for each pass `i`.
   */
  lemma {:induction false} BlockMoveCopies(mem: seq<uint8>, src: Address, dst: Address, a: uint16, forward: bool)
    requires IsImage(mem)
    requires Disjoint(src, dst, Passes(a), forward)
    ensures forall i :: 0 <= i < Passes(a) ==>
              Read(BlockMove(mem, src, dst, a, forward), Cursor(dst, i, forward)) == Read(mem, Cursor(src, i, forward))
    decreases Passes(a)
  {
    if a != 0xFFFF {
      var n := Passes(a);
      var mem1 := Write(mem, dst, Read(mem, src));
      var src1, dst1 := Step(src, forward), Step(dst, forward);
      var res := BlockMove(mem, src, dst, a, forward);
      assert res == BlockMove(mem1, src1, dst1, Decrement(a), forward);
      assert dst == Cursor(dst, 0, forward) && src == Cursor(src, 0, forward);
      assert Covers(dst, n, dst, forward);
      forall i | 0 <= i < n - 1
        ensures !Covers(dst1, n - 1, Cursor(src1, i, forward), forward)
      {
        CursorStep(src, i, forward);
        var p := Cursor(src, i + 1, forward);
        assert !Covers(dst, n, p, forward);
        if p.bank == dst.bank {
          DistanceStep(dst, p, forward);
        }
      }
      BlockMoveCopies(mem1, src1, dst1, Decrement(a), forward);
      forall i | 0 <= i < n
        ensures Read(res, Cursor(dst, i, forward)) == Read(mem, Cursor(src, i, forward))
      {
        if i == 0 {
          DistanceStep(dst, dst, forward);
          BlockMoveKeeps(mem1, src1, dst1, Decrement(a), forward, dst);
        } else {
          CursorStep(src, i - 1, forward);
          CursorStep(dst, i - 1, forward);
          assert !Covers(dst, n, Cursor(src, i, forward), forward);
          WriteKeeps(mem, dst, Read(mem, src), Cursor(src, i, forward));
        }
      }
    }
  }
}
