/**
 * The PC16550D UART: eight byte-wide registers behind three address lines, a divisor latch gated by
 * DLAB, 16-entry transmit and receive FIFOs, read-to-clear status registers, loopback, and a per-byte
 * transmit countdown driven by the CPU's cycle count. The terminal is a sequence of input bytes
 * (one taken per poll, 0 meaning no key) and a log of output bytes.
 */
module Uart {
  import opened Bytes
  import opened Addressing
  import opened Wrappers

  /** Entries in each FIFO. */
  const FIFO_SIZE: int := 16

  // FCR
  const FIFO_ENABLE := Bits(true, false, false, false, false, false, false, false)  // 0x01
  const RCVR_FIFO_RESET := Bits(false, true, false, false, false, false, false, false)  // 0x02
  const XMIT_FIFO_RESET := Bits(false, false, true, false, false, false, false, false)  // 0x04
  // LCR
  const DLAB := Bits(false, false, false, false, false, false, false, true)  // 0x80
  // MCR
  const DTR := Bits(true, false, false, false, false, false, false, false)  // 0x01
  const RTS := Bits(false, true, false, false, false, false, false, false)  // 0x02
  const OUT1 := Bits(false, false, true, false, false, false, false, false)  // 0x04
  const OUT2 := Bits(false, false, false, true, false, false, false, false)  // 0x08
  const LOOPBACK := Bits(false, false, false, false, true, false, false, false)  // 0x10
  // LSR
  const DR := Bits(true, false, false, false, false, false, false, false)  // 0x01
  const OE := Bits(false, true, false, false, false, false, false, false)  // 0x02
  const THRE := Bits(false, false, false, false, false, true, false, false)  // 0x20
  const TEMT := Bits(false, false, false, false, false, false, true, false)  // 0x40
  // MSR
  const CTS := Bits(false, false, false, false, true, false, false, false)  // 0x10
  const DSR := Bits(false, false, false, false, false, true, false, false)  // 0x20
  const RI := Bits(false, false, false, false, false, false, true, false)  // 0x40
  const DCD := Bits(false, false, false, false, false, false, false, true)  // 0x80

  /** IIR FIFO bits, 0xC0. */
  const FIFO_INT := Bits(false, false, false, false, false, false, true, true)
  /** THRE | TEMT, 0x60. */
  const THRE_TEMT := Bits(false, false, false, false, false, true, true, false)
  /** OE | PE | FE | BI | FIFO_ERR, 0x9E: the LSR bits a read of LSR clears. */
  const LSR_READ_CLEARS := Bits(false, true, true, true, true, false, false, true)
  /** IER bits 4-7 are hard-wired to zero: a write keeps `& 0x0F`. */
  const IER_MASK := Bits(true, true, true, true, false, false, false, false)
  /** MCR bits 5-7 are always zero: a write keeps `& 0x1F`. */
  const MCR_MASK := Bits(true, true, true, true, true, false, false, false)
  /** FCR reserved bits 4 and 5 are dropped: a write keeps `& 0xCF`. */
  const FCR_MASK := Bits(true, true, true, true, false, false, true, true)
  /** What a read of MSR leaves behind: the delta bits cleared, 0xF0. */
  const MSR_AFTER_READ := Bits(false, false, false, false, true, true, true, true)

  /** `(in.getAbsolute() - mBase)` as the `uint32_t` the source computes. */
  function Distance(base: uint32, addr: Address): uint32
  {
    (addr.Absolute() - base) % 0x1_0000_0000
  }

  /** `setMSR(mask, set)`: every bit of `mask` becomes `on`, every other bit keeps its value. */
  function SetMsrBits(msr: Bits, mask: Bits, on: bool): Bits
  {
    Bits(
      if mask.b0 then on else msr.b0, if mask.b1 then on else msr.b1,
      if mask.b2 then on else msr.b2, if mask.b3 then on else msr.b3,
      if mask.b4 then on else msr.b4, if mask.b5 then on else msr.b5,
      if mask.b6 then on else msr.b6, if mask.b7 then on else msr.b7)
  }

  /** The MSR after a loopback MCR write: CTS, DSR, RI and DCD follow RTS, DTR, OUT1 and OUT2. */
  function LoopbackMsr(msr: Bits, mcr: Bits): Bits
  {
    var m1 := SetMsrBits(msr, CTS, mcr.Has(RTS));
    var m2 := SetMsrBits(m1, DSR, mcr.Has(DTR));
    var m3 := SetMsrBits(m2, RI, mcr.Has(OUT1));
    SetMsrBits(m3, DCD, mcr.Has(OUT2))
  }

  /** `setByteRate`: two clocks per unit of the 16-bit divisor `DLM:DLL`. */
  function ClocksPerByte(dll: uint8, dlm: uint8): uint32
  {
    Word(dll, dlm) * 2
  }

  /** The whole UART state; the registers the constructor leaves uninitialised hold arbitrary values. */
  datatype UartState = UartState(
    base: uint32,
    rcvrFifo: seq<uint8>, xmitFifo: seq<uint8>,
    rbr: uint8, thr: uint8,
    ier: Bits, iir: Bits, fcr: Bits, lcr: Bits, mcr: Bits, lsr: Bits, msr: Bits,
    scr: uint8, dll: uint8, dlm: uint8,
    clocksPerByte: uint32, clocksUntilSend: int32, rbrFull: bool,
    connected: bool, input: seq<uint8>, output: seq<uint8>)
  {
    predicate FifoMode() { fcr.Has(FIFO_ENABLE) }
    predicate Dlab() { lcr.Has(DLAB) }
    predicate Loopback() { mcr.Has(LOOPBACK) }

    /**
     * What every operation keeps: the FIFOs hold at most 16 bytes and are empty outside FIFO mode,
     * and FCR is 0 or exactly FIFO_ENABLE.
     */
    predicate Valid()
    {
      && |rcvrFifo| <= FIFO_SIZE && |xmitFifo| <= FIFO_SIZE
      && (fcr == NONE || fcr == FIFO_ENABLE)
      && (fcr == NONE ==> rcvrFifo == [] && xmitFifo == [])
    }

    /** `decodeAddress`: the UART answers on the eight addresses from its base up (three address lines). */
    function DecodeAddress(addr: Address): (r: Option<Address>)
      ensures r.Some? <==> Distance(base, addr) < 8
      ensures r.Some? ==> r.value.bank == 0 && r.value.offset == Distance(base, addr)
    {
      var d := Distance(base, addr);
      if d < 8 then Some(FromAbsolute(d)) else None
    }

    /** `receive(v)`: into the FIFO (the newest byte dropped with OE when full), or into RBR (OE if it was unread). */
    function Receive(v: uint8): (r: UartState)
      requires Valid()
      ensures r.Valid()
    {
      if FifoMode() then
        var pushed := rcvrFifo + [v];
        if |pushed| > FIFO_SIZE then this.(rcvrFifo := pushed[..|pushed| - 1], lsr := lsr.Or(DR).Or(OE))
        else this.(rcvrFifo := pushed, lsr := lsr.Or(DR))
      else
        var withOverrun := if rbrFull then lsr.Or(OE) else lsr;
        this.(rbr := v, lsr := withOverrun.Or(DR), rbrFull := true)
    }

    /** The byte that goes out next (FIFO front or THR), with THRE|TEMT set once nothing is left to send. */
    function TakeTransmitted(): (r: (uint8, UartState))
      requires Valid() && (FifoMode() ==> |xmitFifo| > 0)
      ensures r.1.Valid()
    {
      if FifoMode() then
        var rest := xmitFifo[1..];
        (xmitFifo[0], this.(xmitFifo := rest, lsr := if |rest| == 0 then lsr.Or(THRE_TEMT) else lsr))
      else
        (thr, this.(lsr := lsr.Or(THRE_TEMT)))
    }

    /** `send` pops the transmit FIFO in loopback FIFO mode without checking that it is non-empty. */
    predicate CanSend() { Loopback() && FifoMode() ==> |xmitFifo| > 0 }

    /** `send`: in loopback the byte is received at once; otherwise the countdown is armed with a full byte time. */
    function Send(): (r: UartState)
      requires Valid() && CanSend()
      ensures r.Valid()
    {
      if Loopback() then
        var (v, t) := TakeTransmitted();
        t.Receive(v)
      else
        this.(clocksUntilSend := WrapInt32(clocksPerByte))
    }

    /** Where a data write puts `v`: THR, or the end of the transmit FIFO unless it is full. */
    function Hold(v: uint8): (r: UartState)
      requires Valid()
      ensures r.Valid()
    {
      if !FifoMode() then this.(thr := v)
      else if |xmitFifo| < FIFO_SIZE then this.(xmitFifo := xmitFifo + [v])
      else this
    }

    /** A data write of `v` (offset 0, DLAB clear): `v` held for sending, THRE and TEMT cleared, then `send`. */
    function WriteData(v: uint8): (r: UartState)
      requires Valid()
      ensures r.Valid()
    {
      var t := Hold(v);
      t.(lsr := t.lsr.Without(THRE_TEMT)).Send()
    }

    /** A write of `v`, its reserved bits already dropped, to the FIFO control register. */
    function WriteFcr(v: Bits): (r: UartState)
      requires Valid()
      ensures r.Valid()
    {
      if fcr.And(v).Has(FIFO_ENABLE) then ResetFifos(v)
      else if v.Has(FIFO_ENABLE) then EnableFifos()
      else DisableFifos()
    }

    /** With FIFO mode on before and after, the reset bits of `v` clear their FIFOs; FCR itself keeps its value. */
    function ResetFifos(v: Bits): (r: UartState)
      requires Valid()
      ensures r.Valid()
    {
      this.(rcvrFifo := if v.Has(RCVR_FIFO_RESET) then [] else rcvrFifo,
            xmitFifo := if v.Has(XMIT_FIFO_RESET) then [] else xmitFifo)
    }

    /** Turning FIFO mode on: both FIFOs and `rbrFull` cleared, FCR exactly FIFO_ENABLE, the IIR FIFO bits set. */
    function EnableFifos(): (r: UartState)
      ensures r.Valid()
    {
      this.(rcvrFifo := [], xmitFifo := [], rbrFull := false, fcr := FIFO_ENABLE, iir := iir.Or(FIFO_INT))
    }

    /** Turning FIFO mode off: the FIFOs cleared if it was on, FCR 0, the IIR FIFO bits cleared. */
    function DisableFifos(): (r: UartState)
      requires Valid()
      ensures r.Valid()
    {
      var cleared := if FifoMode() then this.(rcvrFifo := [], xmitFifo := []) else this;
      cleared.(fcr := NONE, iir := iir.Without(FIFO_INT))
    }

    /** A write of `m`, its top three bits already cleared, to MCR; in loopback the modem status inputs follow its outputs. */
    function WriteMcr(m: Bits): (r: UartState)
      requires Valid()
      ensures r.Valid()
    {
      this.(mcr := m, msr := if m.Has(LOOPBACK) then LoopbackMsr(msr, m) else msr)
    }

    /** `storeByte`: a write of `v` to register `addr.offset`. */
    function Store(addr: Address, v: uint8): (r: UartState)
      requires Valid()
      ensures r.Valid()
    {
      var offset := addr.offset;
      if offset == 0 then
        if Dlab() then this.(dll := v, clocksPerByte := ClocksPerByte(v, dlm)) else WriteData(v)
      else if offset == 1 then
        if Dlab() then this.(dlm := v, clocksPerByte := ClocksPerByte(dll, v)) else this.(ier := FromValue(v).And(IER_MASK))
      else if offset == 2 then WriteFcr(FromValue(v).And(FCR_MASK))
      else if offset == 3 then this.(lcr := FromValue(v))
      else if offset == 4 then WriteMcr(FromValue(v).And(MCR_MASK))
      else if offset == 7 then this.(scr := v)
      else this
    }

    /** The FIFO data read pops the receive FIFO after testing the transmit FIFO, so it needs a received byte then. */
    predicate CanReadData() { FifoMode() && |xmitFifo| > 0 ==> |rcvrFifo| > 0 }

    predicate CanRead(addr: Address) { addr.offset == 0 && !Dlab() ==> CanReadData() }

    /** A read of offset 0 with DLAB clear: the receive FIFO front (only while the transmit FIFO is non-empty) or RBR. */
    function ReadData(): (r: (uint8, UartState))
      requires Valid() && CanReadData()
      ensures r.1.Valid()
    {
      if FifoMode() then
        if |xmitFifo| != 0 then
          var rest := rcvrFifo[1..];
          (rcvrFifo[0], this.(rcvrFifo := rest, lsr := if |rest| == 0 then lsr.Without(DR) else lsr))
        else (0, this)
      else (rbr, this.(lsr := lsr.Without(DR)))
    }

    /** `readByte`: the value of register `addr.offset` and the state after the read's side effects. */
    function Read(addr: Address): (r: (uint8, UartState))
      requires Valid() && CanRead(addr)
      ensures r.1.Valid()
    {
      var offset := addr.offset;
      if offset == 0 then (if Dlab() then (dll, this) else ReadData())
      else if offset == 1 then (if Dlab() then dlm else ier.Value(), this)
      else if offset == 2 then (iir.Value(), this)
      else if offset == 3 then (lcr.Value(), this)
      else if offset == 4 then (mcr.Value(), this)
      else if offset == 5 then (lsr.Value(), this.(lsr := lsr.Without(LSR_READ_CLEARS)))
      else if offset == 6 then (msr.Value(), this.(msr := MSR_AFTER_READ))
      else if offset == 7 then (scr, this)
      else (0, this)
    }

    /** One `read` of the terminal: the next input byte, or 0 when no key is waiting. */
    function Poll(): (r: (uint8, UartState))
    {
      if |input| == 0 then (0, this) else (input[0], this.(input := input[1..]))
    }

    /** `mClocksUntilSend -= cycles` is signed `int` arithmetic, which must not overflow. */
    predicate CanCount(cycles: int32)
    {
      -0x8000_0000 <= clocksUntilSend - cycles < 0x8000_0000
    }

    /** The transmit FIFO front is popped without a check when the countdown expires with THRE clear. */
    predicate CanAddCycles(cycles: int32)
    {
      && CanCount(cycles)
      && (clocksUntilSend - cycles <= 0 && !lsr.Has(THRE) && FifoMode() ==> |xmitFifo| > 0)
    }

    /** The part of an expired countdown that sends: one byte to the terminal if THRE is clear. */
    function Transmit(): (r: UartState)
      requires Valid() && (!lsr.Has(THRE) && FifoMode() ==> |xmitFifo| > 0)
      ensures r.Valid()
    {
      if lsr.Has(THRE) then this
      else
        var (v, t) := TakeTransmitted();
        if connected then t.(output := t.output + [v]) else t
    }

    /** The part of an expired countdown that receives: one waiting non-zero terminal byte. */
    function PollTerminal(): (r: UartState)
      requires Valid()
      ensures r.Valid()
    {
      if connected then
        var (key, polled) := Poll();
        if key != 0 then polled.Receive(key) else polled
      else this
    }

    /**
     * `addCycles(cycles)`: count the transmit timer down; when it expires reload it by one byte time,
     * send one byte to the terminal if THRE is clear, and then receive one waiting terminal byte.
     */
    function AddCycles(cycles: int32): (r: UartState)
      requires Valid() && CanAddCycles(cycles)
      ensures r.Valid()
    {
      var remaining := clocksUntilSend - cycles;
      if remaining > 0 then this.(clocksUntilSend := remaining)
      else this.(clocksUntilSend := WrapInt32(remaining + clocksPerByte)).Transmit().PollTerminal()
    }
  }

  /**
   * The state right after construction: IER, FCR, LCR, MCR and MSR 0, IIR 1, LSR 0x60 (THRE|TEMT),
   * clocks-per-byte 0xFFFFFFFF, empty FIFOs, RBR not full. RBR, THR, SCR, DLL, DLM and the countdown
   * are not initialised and are taken from `rbr`, `thr`, `scr`, `dll`, `dlm` and `countdown`.
   */
  function Reset(base: uint32, connected: bool, input: seq<uint8>,
                 rbr: uint8, thr: uint8, scr: uint8, dll: uint8, dlm: uint8, countdown: int32): (r: UartState)
    ensures r.Valid() && !r.FifoMode() && !r.Dlab() && !r.Loopback()
    ensures r.lsr.Value() == 0x60 && r.iir.Value() == 1 && r.output == []
  {
    UartState(base, [], [], rbr, thr, NONE, Bit(0), NONE, NONE, NONE, THRE_TEMT, NONE, scr, dll, dlm,
              0xFFFF_FFFF, countdown, false, connected, input, [])
  }
}
