/** What the UART promises about its registers, FIFOs, loopback and transmit countdown. */
module UartProperties {
  import opened Bytes
  import opened Addressing
  import opened Uart

  /** The value kept by the IER write mask `& 0x0F`. */
  lemma IerMaskValue(v: uint8)
    ensures FromValue(v).And(IER_MASK).Value() == v % 0x10
  {
    NibbleOfValue(v % 0x10);
  }

  /** The value kept by the MCR write mask `& 0x1F`. */
  lemma McrMaskValue(v: uint8)
    ensures FromValue(v).And(MCR_MASK).Value() == v % 0x20
  {
    NibbleOfValue(v % 0x10);
    assert v % 0x20 == v % 0x10 + 0x10 * (v / 0x10 % 2);
  }

  /**
   * With DLAB set, offsets 0 and 1 are the divisor latch: a write reads back unchanged, keeps the
   * other latch byte, and sets clocks-per-byte to twice the divisor `DLM << 8 | DLL`.
   */
  lemma DivisorLatch(u: UartState, addr: Address, v: uint8)
    requires u.Valid() && u.Dlab() && addr.offset < 2
    ensures var r := u.Store(addr, v);
      && r.Dlab() && r.Read(addr).0 == v
      && r.clocksPerByte == 2 * (r.dlm * 0x100 + r.dll)
      && (addr.offset == 0 ==> r.dll == v && r.dlm == u.dlm)
      && (addr.offset == 1 ==> r.dlm == v && r.dll == u.dll)
  {
  }

  /** LCR and the scratch register read back what was written. */
  lemma PlainRegisterRoundTrip(u: UartState, addr: Address, v: uint8)
    requires u.Valid() && (addr.offset == 3 || addr.offset == 7)
    ensures u.Store(addr, v).Read(addr).0 == v
  {
    if addr.offset == 3 {
      assert u.Store(addr, v) == u.(lcr := FromValue(v));
      ValueOfBits(v);
    }
  }

  /** IER (DLAB clear) reads back the written value with its top four bits cleared. */
  lemma IerRoundTrip(u: UartState, addr: Address, v: uint8)
    requires u.Valid() && addr.offset == 1 && !u.Dlab()
    ensures u.Store(addr, v).Read(addr).0 == v % 0x10
  {
    assert u.Store(addr, v) == u.(ier := FromValue(v).And(IER_MASK));
    IerMaskValue(v);
  }

  /** MCR reads back the written value with its top three bits cleared. */
  lemma McrRoundTrip(u: UartState, addr: Address, v: uint8)
    requires u.Valid() && addr.offset == 4
    ensures u.Store(addr, v).Read(addr).0 == v % 0x20
  {
    assert u.Store(addr, v).mcr == FromValue(v).And(MCR_MASK);
    McrMaskValue(v);
  }

  /** LSR and MSR are not writable: a write there changes nothing. */
  lemma StatusNotWritable(u: UartState, addr: Address, v: uint8)
    requires u.Valid() && (addr.offset == 5 || addr.offset == 6)
    ensures u.Store(addr, v) == u
  {
  }

  /**
   * A data write (offset 0, DLAB clear) outside loopback clears THRE and TEMT, keeps the other LSR
   * bits and arms the countdown with one byte time.
   */
  lemma DataWriteArms(u: UartState, addr: Address, v: uint8)
    requires u.Valid() && addr.offset == 0 && !u.Dlab() && !u.Loopback()
    ensures var r := u.Store(addr, v);
      && !r.lsr.Has(THRE) && !r.lsr.Has(TEMT)
      && r.lsr.Without(THRE_TEMT) == u.lsr.Without(THRE_TEMT)
      && r.clocksUntilSend == WrapInt32(u.clocksPerByte)
  {
    assert u.Store(addr, v) == u.WriteData(v);
  }

  /**
   * A data write outside loopback: the byte goes to THR, or to the end of the transmit FIFO while it
   * has room and is dropped when it is full, so the FIFO never exceeds 16 entries; nothing is
   * received and nothing reaches the terminal.
   */
  lemma DataWriteQueues(u: UartState, addr: Address, v: uint8)
    requires u.Valid() && addr.offset == 0 && !u.Dlab() && !u.Loopback()
    ensures var r := u.Store(addr, v);
      && (u.FifoMode() ==> r.xmitFifo == (if |u.xmitFifo| < FIFO_SIZE then u.xmitFifo + [v] else u.xmitFifo))
      && (!u.FifoMode() ==> r.thr == v && r.xmitFifo == [])
      && |r.xmitFifo| <= FIFO_SIZE
      && r.rcvrFifo == u.rcvrFifo && r.output == u.output
  {
    assert u.Store(addr, v) == u.WriteData(v);
  }

  /**
   * In loopback without FIFOs a data write is received at once instead of arming the countdown: RBR
   * holds the byte, DR, THRE and TEMT are set, OE is set exactly when RBR was still full or OE already
   * was, and the countdown is left as it was.
   */
  lemma LoopbackEcho(u: UartState, addr: Address, v: uint8)
    requires u.Valid() && addr.offset == 0 && !u.Dlab() && u.Loopback() && !u.FifoMode()
    ensures var w := u.Store(addr, v);
      && w.rbr == v && w.rbrFull && !w.FifoMode() && !w.Dlab()
      && w.lsr.Has(DR) && w.lsr.Has(THRE) && w.lsr.Has(TEMT)
      && (w.lsr.Has(OE) <==> u.rbrFull || u.lsr.Has(OE))
      && w.clocksUntilSend == u.clocksUntilSend
  {
    var t := u.(thr := v, lsr := u.lsr.Without(THRE_TEMT));
    assert t.TakeTransmitted() == (v, t.(lsr := t.lsr.Or(THRE_TEMT)));
    assert u.Store(addr, v) == t.(lsr := t.lsr.Or(THRE_TEMT)).Receive(v);
  }

  /** The data read after a loopback write without FIFOs returns the byte and clears DR but leaves `rbrFull` set. */
  lemma LoopbackEchoRead(u: UartState, addr: Address, v: uint8)
    requires u.Valid() && addr.offset == 0 && !u.Dlab() && u.Loopback() && !u.FifoMode()
    ensures var w := u.Store(addr, v);
      && w.Read(addr).0 == v && !w.Read(addr).1.lsr.Has(DR) && w.Read(addr).1.rbrFull
  {
    LoopbackEcho(u, addr, v);
  }

  /**
   * A data read without FIFOs returns RBR and clears DR, but leaves `rbrFull` set, and changes
   * nothing else.
   */
  lemma RbrRead(u: UartState, addr: Address)
    requires u.Valid() && addr.offset == 0 && !u.Dlab() && !u.FifoMode()
    ensures var r := u.Read(addr);
      && r.0 == u.rbr && !r.1.lsr.Has(DR) && r.1.rbrFull == u.rbrFull
      && r.1.lsr.Or(DR) == u.lsr.Or(DR) && r.1.(lsr := u.lsr) == u
  {
  }

  /**
   * Since a data read without FIFOs never clears `rbrFull`, the next byte received after it sets OE
   * even though RBR was read.
   */
  lemma RbrReadThenReceiveOverruns(u: UartState, addr: Address, v: uint8, w: uint8)
    requires u.Valid() && addr.offset == 0 && !u.Dlab() && !u.FifoMode()
    ensures var r := u.Receive(v).Read(addr);
      && r.0 == v && r.1.Receive(w).lsr.Has(OE)
  {
    RbrRead(u.Receive(v), addr);
  }

  /**
   * A data read in FIFO mode, while the transmit FIFO is non-empty, pops the front of the receive
   * FIFO and clears DR exactly when that empties it; nothing else changes.
   */
  lemma FifoRead(u: UartState, addr: Address)
    requires u.Valid() && addr.offset == 0 && !u.Dlab() && u.FifoMode()
    requires |u.xmitFifo| > 0 && |u.rcvrFifo| > 0
    ensures var r := u.Read(addr);
      && r.0 == u.rcvrFifo[0] && r.1.rcvrFifo == u.rcvrFifo[1..]
      && (r.1.lsr.Has(DR) <==> u.lsr.Has(DR) && |u.rcvrFifo| > 1)
      && r.1.lsr.Or(DR) == u.lsr.Or(DR) && r.1.(rcvrFifo := u.rcvrFifo, lsr := u.lsr) == u
  {
  }

  /** A data read in FIFO mode with an empty transmit FIFO returns 0 and changes nothing. */
  lemma FifoReadIdle(u: UartState, addr: Address)
    requires u.Valid() && addr.offset == 0 && !u.Dlab() && u.FifoMode() && u.xmitFifo == []
    ensures u.Read(addr) == (0, u)
  {
  }

  /**
   * In loopback with FIFOs a byte written into an empty transmit FIFO lands at the end of the receive
   * FIFO, THRE and TEMT are set and the countdown is not armed; but since the data read tests the
   * (now empty) transmit FIFO, it returns 0 and leaves the received byte where it is.
   */
  lemma LoopbackFifoRead(u: UartState, addr: Address, v: uint8)
    requires u.Valid() && addr.offset == 0 && !u.Dlab() && u.Loopback() && u.FifoMode()
    requires u.xmitFifo == [] && |u.rcvrFifo| < FIFO_SIZE
    ensures var w := u.Store(addr, v);
      && w.xmitFifo == [] && w.rcvrFifo == u.rcvrFifo + [v]
      && w.lsr.Has(DR) && w.lsr.Has(THRE) && w.lsr.Has(TEMT)
      && w.Read(addr) == (0, w)
      && w.clocksUntilSend == u.clocksUntilSend
  {
    assert u.Store(addr, v) == u.WriteData(v);
  }

  /**
   * Turning FIFO mode on clears both FIFOs and `rbrFull`, makes FCR exactly FIFO_ENABLE and sets the
   * IIR FIFO bits, keeping the other IIR bits.
   */
  lemma FcrEnable(u: UartState, addr: Address, v: uint8)
    requires u.Valid() && addr.offset == 2 && !u.FifoMode() && FromValue(v).Has(FIFO_ENABLE)
    ensures var r := u.Store(addr, v);
      && r.fcr == FIFO_ENABLE && r.rcvrFifo == [] && r.xmitFifo == [] && !r.rbrFull
      && r.iir.And(FIFO_INT) == FIFO_INT && r.iir.Without(FIFO_INT) == u.iir.Without(FIFO_INT)
  {
    assert u.Store(addr, v) == u.WriteFcr(FromValue(v).And(FCR_MASK));
  }

  /** A value without FIFO_ENABLE clears both FIFOs, FCR and the IIR FIFO bits, keeping the other IIR bits. */
  lemma FcrDisable(u: UartState, addr: Address, v: uint8)
    requires u.Valid() && addr.offset == 2 && !FromValue(v).Has(FIFO_ENABLE)
    ensures var r := u.Store(addr, v);
      && r.fcr == NONE && r.rcvrFifo == [] && r.xmitFifo == []
      && !r.iir.Has(FIFO_INT) && r.iir.Without(FIFO_INT) == u.iir.Without(FIFO_INT)
  {
    assert u.Store(addr, v) == u.WriteFcr(FromValue(v).And(FCR_MASK));
  }

  /**
   * In FIFO mode a value with FIFO_ENABLE clears only the FIFOs whose reset bit (0x02 receive,
   * 0x04 transmit) it carries; FCR itself, IIR and `rbrFull` stay as they were.
   */
  lemma FcrReset(u: UartState, addr: Address, v: uint8)
    requires u.Valid() && addr.offset == 2 && u.FifoMode() && FromValue(v).Has(FIFO_ENABLE)
    ensures var r := u.Store(addr, v);
      && r.fcr == u.fcr && r.iir == u.iir && r.rbrFull == u.rbrFull
      && r.rcvrFifo == (if FromValue(v).Has(RCVR_FIFO_RESET) then [] else u.rcvrFifo)
      && r.xmitFifo == (if FromValue(v).Has(XMIT_FIFO_RESET) then [] else u.xmitFifo)
  {
    assert u.Store(addr, v) == u.WriteFcr(FromValue(v).And(FCR_MASK));
  }

  /**
   * `receive` in FIFO mode: the byte joins the receive FIFO while it has room; otherwise it is lost
   * and OE is set. DR is set either way.
   */
  lemma ReceiveIntoFifo(u: UartState, v: uint8)
    requires u.Valid() && u.FifoMode()
    ensures var r := u.Receive(v);
      && r.lsr.Has(DR) && |r.rcvrFifo| <= FIFO_SIZE
      && (|u.rcvrFifo| < FIFO_SIZE ==> r.rcvrFifo == u.rcvrFifo + [v] && r.lsr.Has(OE) == u.lsr.Has(OE))
      && (|u.rcvrFifo| == FIFO_SIZE ==> r.rcvrFifo == u.rcvrFifo && r.lsr.Has(OE))
  {
    if |u.rcvrFifo| == FIFO_SIZE {
      assert (u.rcvrFifo + [v])[..FIFO_SIZE] == u.rcvrFifo;
    }
  }

  /** `receive` without FIFOs: RBR takes the byte, DR is set, and OE is set when RBR had not been read. */
  lemma ReceiveIntoBuffer(u: UartState, v: uint8)
    requires u.Valid() && !u.FifoMode()
    ensures var r := u.Receive(v);
      && r.rbr == v && r.rbrFull && r.lsr.Has(DR)
      && (r.lsr.Has(OE) <==> u.rbrFull || u.lsr.Has(OE))
  {
  }

  /** Reading LSR returns it and clears OE, PE, FE, BI and FIFO_ERR, keeping DR, THRE and TEMT. */
  lemma LsrRead(u: UartState, addr: Address)
    requires u.Valid() && addr.offset == 5
    ensures var r := u.Read(addr);
      && r.0 == u.lsr.Value()
      && !r.1.lsr.Has(LSR_READ_CLEARS)
      && r.1.lsr.Has(DR) == u.lsr.Has(DR) && r.1.lsr.Has(THRE) == u.lsr.Has(THRE) && r.1.lsr.Has(TEMT) == u.lsr.Has(TEMT)
      && r.1 == u.(lsr := r.1.lsr)
  {
  }

  /** Reading MSR returns it and leaves 0xF0, so an immediate second read sees 0xF0. */
  lemma MsrRead(u: UartState, addr: Address)
    requires u.Valid() && addr.offset == 6
    ensures var r := u.Read(addr);
      && r.0 == u.msr.Value() && r.1.Read(addr).0 == 0xF0 && r.1 == u.(msr := r.1.msr)
  {
  }

  /**
   * An MCR write with LOOPBACK makes CTS, DSR, RI and DCD follow RTS, DTR, OUT1 and OUT2 and keeps
   * the delta bits; without LOOPBACK MSR is unchanged.
   */
  lemma LoopbackModemStatus(u: UartState, addr: Address, v: uint8)
    requires u.Valid() && addr.offset == 4
    ensures var r := u.Store(addr, v);
      var m := FromValue(v);
      && r.mcr == m.And(MCR_MASK) && r.Loopback() == m.Has(LOOPBACK)
      && (m.Has(LOOPBACK) ==> r.msr == u.msr.(b4 := m.b1, b5 := m.b0, b6 := m.b2, b7 := m.b3))
      && (!m.Has(LOOPBACK) ==> r.msr == u.msr)
  {
    var m := FromValue(v).And(MCR_MASK);
    assert u.Store(addr, v) == u.WriteMcr(FromValue(v).And(MCR_MASK));
    LoopbackMsrBits(u.msr, m);
  }

  /** `setMSR` four times over: CTS, DSR, RI and DCD copy RTS, DTR, OUT1 and OUT2; the delta bits stay. */
  lemma LoopbackMsrBits(msr: Bits, mcr: Bits)
    ensures LoopbackMsr(msr, mcr) == msr.(b4 := mcr.b1, b5 := mcr.b0, b6 := mcr.b2, b7 := mcr.b3)
  {
  }

  /** `setMSR(mask, set)` is `msr |= mask` when `set` holds and `msr &= ~mask` otherwise. */
  lemma SetMsrBitsMasks(msr: Bits, mask: Bits, on: bool)
    ensures on ==> SetMsrBits(msr, mask, on) == msr.Or(mask)
    ensures !on ==> SetMsrBits(msr, mask, on) == msr.Without(mask)
  {
  }

  /** While the countdown stays positive, `addCycles` only counts it down. */
  lemma CountdownRunning(u: UartState, cycles: int32)
    requires u.Valid() && u.CanAddCycles(cycles) && u.clocksUntilSend - cycles > 0
    ensures u.AddCycles(cycles) == u.(clocksUntilSend := u.clocksUntilSend - cycles)
  {
  }

  /**
   * When the countdown expires it is reloaded by one byte time (in 32-bit arithmetic), and with THRE
   * clear exactly one byte, the FIFO front or THR, goes to a connected terminal; otherwise none does.
   */
  lemma CountdownTransmits(u: UartState, cycles: int32)
    requires u.Valid() && u.CanAddCycles(cycles) && u.clocksUntilSend - cycles <= 0
    ensures var r := u.AddCycles(cycles);
      && r.clocksUntilSend == WrapInt32(u.clocksUntilSend - cycles + u.clocksPerByte)
      && (u.connected && !u.lsr.Has(THRE) ==>
            r.output == u.output + [if u.FifoMode() then u.xmitFifo[0] else u.thr])
      && (!u.connected || u.lsr.Has(THRE) ==> r.output == u.output)
      && (u.FifoMode() && !u.lsr.Has(THRE) ==> r.xmitFifo == u.xmitFifo[1..])
  {
    var reloaded := u.(clocksUntilSend := WrapInt32(u.clocksUntilSend - cycles + u.clocksPerByte));
    var sent := reloaded.Transmit();
    assert u.AddCycles(cycles) == sent.PollTerminal();
    if !u.lsr.Has(THRE) {
      var (b, t) := reloaded.TakeTransmitted();
      assert b == if u.FifoMode() then u.xmitFifo[0] else u.thr;
      assert u.FifoMode() ==> t.xmitFifo == u.xmitFifo[1..];
    } else {
      assert sent == reloaded;
    }
  }

  /** `receive` only sets DR and OE in LSR, so THRE and TEMT keep their values. */
  lemma ReceiveKeepsTransmitterStatus(u: UartState, v: uint8)
    requires u.Valid()
    ensures u.Receive(v).lsr.Has(THRE) == u.lsr.Has(THRE)
    ensures u.Receive(v).lsr.Has(TEMT) == u.lsr.Has(TEMT)
  {
    var lsr := u.Receive(v).lsr;
    assert lsr == u.lsr.Or(DR) || lsr == u.lsr.Or(DR).Or(OE) || lsr == u.lsr.Or(OE).Or(DR);
  }

  /** Polling the terminal after an expired countdown leaves THRE and TEMT as they were. */
  lemma PollKeepsTransmitterStatus(s: UartState)
    requires s.Valid()
    ensures s.PollTerminal().lsr.Has(THRE) == s.lsr.Has(THRE)
    ensures s.PollTerminal().lsr.Has(TEMT) == s.lsr.Has(TEMT)
  {
    if s.connected && |s.input| > 0 && s.input[0] != 0 {
      var polled := s.(input := s.input[1..]);
      assert s.PollTerminal() == polled.Receive(s.input[0]);
      ReceiveKeepsTransmitterStatus(polled, s.input[0]);
    }
  }

  /**
   * When the countdown expires with THRE clear, THRE is set again exactly when the byte sent was the
   * last one waiting (always outside FIFO mode, or when the transmit FIFO held one byte), and TEMT with it.
   */
  lemma CountdownEmpties(u: UartState, cycles: int32)
    requires u.Valid() && u.CanAddCycles(cycles) && u.clocksUntilSend - cycles <= 0 && !u.lsr.Has(THRE)
    ensures var r := u.AddCycles(cycles);
      && (r.lsr.Has(THRE) <==> !u.FifoMode() || |u.xmitFifo| == 1)
      && (r.lsr.Has(THRE) ==> r.lsr.Has(TEMT))
  {
    var reloaded := u.(clocksUntilSend := WrapInt32(u.clocksUntilSend - cycles + u.clocksPerByte));
    var sent := reloaded.Transmit();
    assert u.AddCycles(cycles) == sent.PollTerminal();
    var (b, t) := reloaded.TakeTransmitted();
    assert sent.lsr == t.lsr;
    PollKeepsTransmitterStatus(sent);
  }

  /**
   * When the countdown expires a connected terminal is polled exactly once, and its byte, when
   * non-zero, is received: into RBR outside FIFO mode, at the back of a receive FIFO with room, or
   * dropped with OE set when the FIFO is full; DR is set in every case.
   */
  lemma CountdownReceives(u: UartState, cycles: int32)
    requires u.Valid() && u.CanAddCycles(cycles) && u.clocksUntilSend - cycles <= 0
    ensures var r := u.AddCycles(cycles);
      && (u.connected && |u.input| > 0 ==> r.input == u.input[1..])
      && (!u.connected || |u.input| == 0 ==> r.input == u.input)
      && (u.connected && |u.input| > 0 && u.input[0] != 0 && !u.FifoMode() ==> r.rbr == u.input[0] && r.rbrFull && r.lsr.Has(DR))
      && (u.connected && |u.input| > 0 && u.input[0] != 0 && u.FifoMode() && |u.rcvrFifo| < FIFO_SIZE ==>
            r.rcvrFifo == u.rcvrFifo + [u.input[0]] && r.lsr.Has(DR))
      && (u.connected && |u.input| > 0 && u.input[0] != 0 && u.FifoMode() && |u.rcvrFifo| == FIFO_SIZE ==>
            r.rcvrFifo == u.rcvrFifo && r.lsr.Has(DR) && r.lsr.Has(OE))
  {
    var reloaded := u.(clocksUntilSend := WrapInt32(u.clocksUntilSend - cycles + u.clocksPerByte));
    var sent := reloaded.Transmit();
    assert u.AddCycles(cycles) == sent.PollTerminal();
    assert sent.input == u.input && sent.FifoMode() == u.FifoMode();
    if u.connected && |u.input| > 0 && u.input[0] != 0 {
      var polled := sent.(input := sent.input[1..]);
      PollReceives(sent);
      assert polled.rcvrFifo == u.rcvrFifo;
      if u.FifoMode() {
        ReceiveIntoFifo(polled, u.input[0]);
      } else {
        ReceiveIntoBuffer(polled, u.input[0]);
      }
    }
  }

  /** A connected terminal with a non-zero byte waiting: the poll consumes it and receives it. */
  lemma PollReceives(s: UartState)
    requires s.Valid() && s.connected && |s.input| > 0 && s.input[0] != 0
    ensures s.PollTerminal() == s.(input := s.input[1..]).Receive(s.input[0])
  {
  }

  /**
   * Turning FIFO mode on while THRE is clear leaves an empty transmit FIFO with THRE still clear, so
   * the next expiry of the countdown would pop an empty FIFO: the precondition of `addCycles` fails.
   */
  lemma FifoEnableStrandsThre(u: UartState, addr: Address, v: uint8, cycles: int32)
    requires u.Valid() && !u.FifoMode() && !u.lsr.Has(THRE)
    requires addr.offset == 2 && FromValue(v).Has(FIFO_ENABLE)
    ensures var r := u.Store(addr, v);
      && r.FifoMode() && r.xmitFifo == [] && !r.lsr.Has(THRE)
      && (r.clocksUntilSend - cycles <= 0 ==> !r.CanAddCycles(cycles))
  {
    assert u.Store(addr, v) == u.WriteFcr(FromValue(v).And(FCR_MASK));
  }
}
