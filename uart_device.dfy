/**
 * The PC16550D as the simulator holds it: one object whose register fields, FIFOs and countdown its
 * methods update in place. Each method is proved against the matching operation on `UartState`, so
 * every property proved there holds of the object.
 */
module UartDevice {
  import opened Bytes
  import opened Addressing
  import opened Uart

  class UartPC16550D {
    const base: uint32
    /** Whether a terminal is attached (`mTerm` non-null). */
    const connected: bool

    var rcvrFifo: seq<uint8>
    var xmitFifo: seq<uint8>
    var rbr: uint8
    var thr: uint8
    var ier: Bits
    var iir: Bits
    var fcr: Bits
    var lcr: Bits
    var mcr: Bits
    var lsr: Bits
    var msr: Bits
    var scr: uint8
    var dll: uint8
    var dlm: uint8
    var clocksPerByte: uint32
    var clocksUntilSend: int32
    var rbrFull: bool
    /** Terminal input still to be polled, and every byte written to the terminal so far. */
    var input: seq<uint8>
    var output: seq<uint8>

    /** The registers, FIFOs and terminal as one value. */
    ghost function State(): UartState
      reads this
    {
      UartState(base, rcvrFifo, xmitFifo, rbr, thr, ier, iir, fcr, lcr, mcr, lsr, msr, scr, dll, dlm,
                clocksPerByte, clocksUntilSend, rbrFull, connected, input, output)
    }

    ghost predicate Valid()
      reads this
    {
      State().Valid()
    }

    /**
     * The reset values; RBR, THR, SCR, DLL, DLM and the countdown are left as they come, since the
     * simulator does not initialise them.
     */
    constructor(baseAddr: Address, connected: bool, input: seq<uint8>)
      ensures State() == Reset(baseAddr.Absolute(), connected, input, rbr, thr, scr, dll, dlm, clocksUntilSend)
      ensures Valid()
    {
      base := baseAddr.Absolute();
      this.connected := connected;
      this.input := input;
      output := [];
      rcvrFifo := [];
      xmitFifo := [];
      ier := NONE;
      iir := Bit(0);
      fcr := NONE;
      lcr := NONE;
      mcr := NONE;
      lsr := THRE_TEMT;
      msr := NONE;
      clocksPerByte := 0xFFFF_FFFF;
      rbrFull := false;
    }

    /** `setByteRate`: the divisor `DLM:DLL` times two. */
    method SetByteRate()
      modifies this`clocksPerByte
      ensures State() == old(State()).(clocksPerByte := ClocksPerByte(dll, dlm))
    {
      var divisor: uint16 := dlm * 0x100 + dll;
      clocksPerByte := divisor * 2;
    }

    /** `setMSR(mask, set)` */
    method SetMsr(mask: Bits, on: bool)
      modifies this`msr
      ensures msr == SetMsrBits(old(msr), mask, on)
    {
      if on {
        msr := msr.Or(mask);
      } else {
        msr := msr.Without(mask);
      }
    }

    /** `receive(v)` */
    method Receive(v: uint8)
      requires Valid()
      modifies this
      ensures State() == old(State()).Receive(v)
    {
      if fcr.Has(FIFO_ENABLE) {
        ReceiveIntoFifo(v);
      } else {
        ReceiveIntoBuffer(v);
      }
    }

    /** The FIFO-mode arm of `receive`: the byte is pushed, and popped again with OE once 16 are held. */
    method ReceiveIntoFifo(v: uint8)
      requires Valid() && State().FifoMode()
      modifies this`rcvrFifo, this`lsr
      ensures State() == old(State()).Receive(v)
    {
      rcvrFifo, lsr := rcvrFifo + [v], lsr.Or(DR);
      if |rcvrFifo| > FIFO_SIZE {
        lsr, rcvrFifo := lsr.Or(OE), rcvrFifo[..|rcvrFifo| - 1];
      }
    }

    /** The arm of `receive` without FIFOs: RBR is overwritten, with OE when it was still full. */
    method ReceiveIntoBuffer(v: uint8)
      requires Valid() && !State().FifoMode()
      modifies this`rbr, this`lsr, this`rbrFull
      ensures State() == old(State()).Receive(v)
    {
      if rbrFull {
        lsr := lsr.Or(OE);
      }
      rbr, lsr, rbrFull := v, lsr.Or(DR), true;
    }

    /** The transmit step shared by `send` and `addCycles`: take the FIFO front or THR. */
    method TakeTransmitted() returns (v: uint8)
      requires Valid() && (State().FifoMode() ==> |xmitFifo| > 0)
      modifies this`xmitFifo, this`lsr
      ensures (v, State()) == old(State()).TakeTransmitted()
    {
      if fcr.Has(FIFO_ENABLE) {
        v := xmitFifo[0];
        xmitFifo := xmitFifo[1..];
        if |xmitFifo| == 0 {
          lsr := lsr.Or(THRE_TEMT);
        }
      } else {
        v := thr;
        lsr := lsr.Or(THRE_TEMT);
      }
    }

    /** `send` */
    method Send()
      requires Valid() && State().CanSend()
      modifies this
      ensures State() == old(State()).Send()
    {
      if mcr.Has(LOOPBACK) {
        var v := TakeTransmitted();
        Receive(v);
      } else {
        clocksUntilSend := WrapInt32(clocksPerByte);
      }
    }

    /** The first half of a data write: `v` goes into THR or, while there is room, the transmit FIFO. */
    method Hold(v: uint8)
      requires Valid()
      modifies this`thr, this`xmitFifo
      ensures State() == old(State()).Hold(v)
    {
      if fcr.Has(FIFO_ENABLE) {
        if |xmitFifo| < FIFO_SIZE {
          xmitFifo := xmitFifo + [v];
        }
      } else {
        thr := v;
      }
    }

    /** The data write of `storeByte` (offset 0, DLAB clear). */
    method WriteData(v: uint8)
      requires Valid()
      modifies this
      ensures State() == old(State()).WriteData(v)
    {
      Hold(v);
      lsr := lsr.Without(THRE_TEMT);
      Send();
    }

    /** The FCR write of `storeByte` (offset 2), after the reserved bits are dropped from `v`. */
    method WriteFcr(v: Bits)
      requires Valid()
      modifies this`rcvrFifo, this`xmitFifo, this`rbrFull, this`fcr, this`iir
      ensures State() == old(State()).WriteFcr(v)
    {
      if fcr.And(v).Has(FIFO_ENABLE) {
        ResetFifos(v);
      } else if v.Has(FIFO_ENABLE) {
        EnableFifos();
      } else {
        DisableFifos();
      }
    }

    /** An FCR write while FIFO mode stays on: only the FIFOs named by the reset bits are cleared. */
    method ResetFifos(v: Bits)
      requires Valid()
      modifies this`rcvrFifo, this`xmitFifo
      ensures State() == old(State()).ResetFifos(v)
    {
      if v.Has(RCVR_FIFO_RESET) {
        rcvrFifo := [];
      }
      if v.Has(XMIT_FIFO_RESET) {
        xmitFifo := [];
      }
    }

    /** Both FIFOs emptied. */
    method ClearFifos()
      modifies this`rcvrFifo, this`xmitFifo
      ensures State() == old(State()).(rcvrFifo := [], xmitFifo := [])
    {
      rcvrFifo, xmitFifo := [], [];
    }

    /** An FCR write that turns FIFO mode on. */
    method EnableFifos()
      modifies this`rcvrFifo, this`xmitFifo, this`rbrFull, this`fcr, this`iir
      ensures State() == old(State()).EnableFifos()
    {
      ClearFifos();
      rbrFull := false;
      SetFifoMode(FIFO_ENABLE, iir.Or(FIFO_INT));
    }

    /** An FCR write without FIFO_ENABLE: FIFO mode is turned off. */
    method DisableFifos()
      requires Valid()
      modifies this`rcvrFifo, this`xmitFifo, this`fcr, this`iir
      ensures State() == old(State()).DisableFifos()
    {
      if fcr.Has(FIFO_ENABLE) {
        ClearFifos();
      }
      SetFifoMode(NONE, iir.Without(FIFO_INT));
    }

    /** FCR and IIR set together, as turning FIFO mode on or off does. */
    method SetFifoMode(newFcr: Bits, newIir: Bits)
      modifies this`fcr, this`iir
      ensures State() == old(State()).(fcr := newFcr, iir := newIir)
    {
      fcr := newFcr;
      iir := newIir;
    }

    /** The MCR write of `storeByte` (offset 4), after the top three bits are cleared from `m`. */
    method WriteMcr(m: Bits)
      requires Valid()
      modifies this`mcr, this`msr
      ensures State() == old(State()).WriteMcr(m)
    {
      mcr := m;
      if mcr.Has(LOOPBACK) {
        FollowModemControl();
      }
    }

    /** In loopback CTS, DSR, RI and DCD are set from RTS, DTR, OUT1 and OUT2. */
    method FollowModemControl()
      modifies this`msr
      ensures State() == old(State()).(msr := LoopbackMsr(old(msr), mcr))
    {
      SetMsr(CTS, mcr.Has(RTS));
      SetMsr(DSR, mcr.Has(DTR));
      SetMsr(RI, mcr.Has(OUT1));
      SetMsr(DCD, mcr.Has(OUT2));
    }

    /** A write of the divisor latch's low byte, which resets the byte rate. */
    method WriteDll(v: uint8)
      modifies this`dll, this`clocksPerByte
      ensures State() == old(State()).(dll := v, clocksPerByte := ClocksPerByte(v, dlm))
    {
      dll := v;
      SetByteRate();
    }

    /** A write of the divisor latch's high byte, which resets the byte rate. */
    method WriteDlm(v: uint8)
      modifies this`dlm, this`clocksPerByte
      ensures State() == old(State()).(dlm := v, clocksPerByte := ClocksPerByte(dll, v))
    {
      dlm := v;
      SetByteRate();
    }

    /** `storeByte(addr, v)`; the interrupt checks it makes are empty in the simulator. */
    method StoreByte(addr: Address, v: uint8)
      requires Valid()
      modifies this
      ensures State() == old(State()).Store(addr, v)
    {
      var offset := addr.offset;
      if offset == 0 {
        if lcr.Has(DLAB) {
          WriteDll(v);
        } else {
          WriteData(v);
        }
      } else if offset == 1 {
        if lcr.Has(DLAB) {
          WriteDlm(v);
        } else {
          ier := FromValue(v).And(IER_MASK);
        }
      } else if offset == 2 {
        WriteFcr(FromValue(v).And(FCR_MASK));
      } else if offset == 3 {
        lcr := FromValue(v);
      } else if offset == 4 {
        WriteMcr(FromValue(v).And(MCR_MASK));
      } else if offset == 7 {
        scr := v;
      }
    }

    /** `readByte(addr)`: the register's value, with the read's side effects applied. */
    method ReadByte(addr: Address) returns (val: uint8)
      requires Valid() && State().CanRead(addr)
      modifies this`rcvrFifo, this`lsr, this`msr
      ensures (val, State()) == old(State()).Read(addr)
    {
      val := 0;
      var offset := addr.offset;
      if offset == 0 {
        if lcr.Has(DLAB) {
          val := dll;
        } else if fcr.Has(FIFO_ENABLE) {
          if |xmitFifo| != 0 {
            val := rcvrFifo[0];
            rcvrFifo := rcvrFifo[1..];
            if |rcvrFifo| == 0 {
              lsr := lsr.Without(DR);
            }
          }
        } else {
          lsr := lsr.Without(DR);
          val := rbr;
        }
      } else if offset == 1 {
        val := if lcr.Has(DLAB) then dlm else ier.Value();
      } else if offset == 2 {
        val := iir.Value();
      } else if offset == 3 {
        val := lcr.Value();
      } else if offset == 4 {
        val := mcr.Value();
      } else if offset == 5 {
        val := lsr.Value();
        lsr := lsr.Without(LSR_READ_CLEARS);
      } else if offset == 6 {
        val := msr.Value();
        msr := MSR_AFTER_READ;
      } else if offset == 7 {
        val := scr;
      }
    }

    /** `mTerm->read()`: the next key, or 0 when none is waiting. */
    method ReadTerminal() returns (key: uint8)
      modifies this`input
      ensures (key, State()) == old(State()).Poll()
    {
      if |input| == 0 {
        key := 0;
      } else {
        key := input[0];
        input := input[1..];
      }
    }

    /** `addCycles(cycles)`; the interrupt check at its end is empty in the simulator. */
    method AddCycles(cycles: int32)
      requires Valid() && State().CanAddCycles(cycles)
      modifies this
      ensures State() == old(State()).AddCycles(cycles)
    {
      clocksUntilSend := clocksUntilSend - cycles;
      if clocksUntilSend > 0 {
        return;
      }
      clocksUntilSend := WrapInt32(clocksUntilSend + clocksPerByte);
      Transmit();
      PollTerminal();
    }

    /** An expired countdown sends one byte to the terminal when THRE is clear. */
    method Transmit()
      requires Valid() && (!lsr.Has(THRE) && State().FifoMode() ==> |xmitFifo| > 0)
      modifies this`xmitFifo, this`lsr, this`output
      ensures State() == old(State()).Transmit()
    {
      if !lsr.Has(THRE) {
        var v := TakeTransmitted();
        if connected {
          output := output + [v];
        }
      }
    }

    /** An expired countdown then receives one waiting non-zero terminal byte. */
    method PollTerminal()
      requires Valid()
      modifies this
      ensures State() == old(State()).PollTerminal()
    {
      if connected {
        var key := ReadTerminal();
        if key != 0 {
          Receive(key);
        }
      }
    }
  }
}
