/** The 65816 stack: a bank-0 cursor over the bus that grows toward lower offsets. */
module CpuStack {
  import opened Bytes
  import opened Addressing
  import opened Memory

  /** Specification of the stack: where the cursor points and what the bus holds. */
  datatype StackState = StackState(sp: Address, mem: seq<uint8>) {

    ghost predicate Valid() { sp.bank == 0 && IsImage(mem) }

    /** `push8Bit`: store at the cursor, then lower it by one. */
    function Push8(v: uint8): (r: StackState)
      requires Valid()
      ensures r.Valid()
    {
      StackState(sp.DecrementOffsetBy(1), Write(mem, sp, v))
    }

    /** `pull8Bit`: raise the cursor by one, then read there. */
    function Pull8(): (r: (uint8, StackState))
      requires Valid()
      ensures r.1.Valid() && r.1.mem == mem
    {
      var sp' := sp.IncrementOffsetBy(1);
      (Read(mem, sp'), StackState(sp', mem))
    }

    /** `push16Bit`: the high byte first, then the low byte. */
    function Push16(v: uint16): (r: StackState)
      requires Valid()
      ensures r.Valid()
    {
      Push8(High(v)).Push8(Low(v))
    }

    /** `pull16Bit`, with the low byte pulled first and the high byte second. */
    function Pull16(): (r: (uint16, StackState))
      requires Valid()
      ensures r.1.Valid() && r.1.mem == mem
    {
      var (lo, s1) := Pull8();
      var (hi, s2) := s1.Pull8();
      (Word(lo, hi), s2)
    }
  }

  /** `pull16Bit` reads the low byte one above the cursor and the high byte two above, and raises the cursor by 2. */
  lemma Pull16Reads(s: StackState)
    requires s.Valid()
    ensures s.Pull16().0 == Word(Read(s.mem, s.sp.IncrementOffsetBy(1)), Read(s.mem, s.sp.IncrementOffsetBy(2)))
    ensures s.Pull16().1.sp == s.sp.IncrementOffsetBy(2)
  {
    OffsetArithmetic(s.sp, 1, 1);
  }

  /** The stack after pushing `bytes` one at a time, `bytes[0]` first. */
  function PushAll(s: StackState, bytes: seq<uint8>): (r: StackState)
    requires s.Valid()
    ensures r.Valid()
    decreases |bytes|
  {
    if bytes == [] then s else PushAll(s.Push8(bytes[0]), bytes[1..])
  }

  /** How far `b` lies below the cursor `sp` within bank 0, counting downward with wrap-around. */
  function Below(sp: Address, b: Address): (d: uint16)
  {
    (sp.offset - b.offset) % 0x1_0000
  }

  /** Pushing a run of bytes lowers the cursor by its length. */
  lemma {:induction false} PushAllCursor(s: StackState, bytes: seq<uint8>)
    requires s.Valid() && |bytes| < 0x1_0000
    ensures PushAll(s, bytes).sp == s.sp.DecrementOffsetBy(|bytes|)
    decreases |bytes|
  {
    if bytes != [] {
      PushAllCursor(s.Push8(bytes[0]), bytes[1..]);
    }
  }

  /** Pushing a run of bytes leaves every address outside the run unchanged. */
  lemma {:induction false} PushAllKeeps(s: StackState, bytes: seq<uint8>, b: Address)
    requires s.Valid() && |bytes| < 0x1_0000
    requires b.bank != 0 || Below(s.sp, b) >= |bytes|
    ensures Read(PushAll(s, bytes).mem, b) == Read(s.mem, b)
    decreases |bytes|
  {
    if bytes != [] {
      var s1 := s.Push8(bytes[0]);
      assert b != s.sp;
      if b.bank == 0 {
        assert Below(s1.sp, b) == Below(s.sp, b) - 1;
      }
      PushAllKeeps(s1, bytes[1..], b);
    }
  }

  /** Pushing a run of bytes leaves byte `i` of the run `i` below the old cursor. */
  lemma {:induction false} PushAllPlaces(s: StackState, bytes: seq<uint8>, i: nat)
    requires s.Valid() && |bytes| < 0x1_0000 && i < |bytes|
    ensures Read(PushAll(s, bytes).mem, s.sp.DecrementOffsetBy(i)) == bytes[i]
    decreases |bytes|
  {
    var s1 := s.Push8(bytes[0]);
    if i == 0 {
      assert Below(s1.sp, s.sp) == 0x1_0000 - 1;
      PushAllKeeps(s1, bytes[1..], s.sp);
    } else {
      assert s.sp.DecrementOffsetBy(i) == s1.sp.DecrementOffsetBy(i - 1);
      PushAllPlaces(s1, bytes[1..], i - 1);
    }
  }

  /** `setEmulation`: bank 0, high byte of the pointer 0x01, low byte kept. */
  function EmulationPointer(sp: Address): (r: Address)
    ensures r.bank == 0 && High(r.offset) == 0x01 && Low(r.offset) == Low(sp.offset)
  {
    Address(0, 0x0100 + sp.offset % 0x100)
  }

  /** A byte pushed and pulled again comes back, and the cursor is where it started. */
  lemma Push8ThenPull8(s: StackState, v: uint8)
    requires s.Valid()
    ensures s.Push8(v).Pull8().0 == v
    ensures s.Push8(v).Pull8().1.sp == s.sp
  {
    IncrementThenDecrement(s.sp, 1);
  }

  /** After `push16Bit(v)` the high byte sits at the old cursor, the low byte one below, and the cursor is 2 lower. */
  lemma Push16Layout(s: StackState, v: uint16)
    requires s.Valid()
    ensures Read(s.Push16(v).mem, s.sp) == High(v)
    ensures Read(s.Push16(v).mem, s.sp.DecrementOffsetBy(1)) == Low(v)
    ensures s.Push16(v).sp == s.sp.DecrementOffsetBy(2)
    ensures forall b: Address :: b != s.sp && b != s.sp.DecrementOffsetBy(1) ==>
              Read(s.Push16(v).mem, b) == Read(s.mem, b)
  {
    assert s.sp.DecrementOffsetBy(1) != s.sp;
  }

  /** A word pushed and pulled again (low byte first) comes back, and the cursor is where it started. */
  lemma {:induction false} Push16ThenPull16(s: StackState, v: uint16)
    requires s.Valid()
    ensures s.Push16(v).Pull16().0 == v
    ensures s.Push16(v).Pull16().1.sp == s.sp
  {
    var s1 := s.Push8(High(v));
    Push8ThenPull8(s1, Low(v));
    var (lo, s2) := s1.Push8(Low(v)).Pull8();
    assert lo == Low(v) && s2.sp == s1.sp;
    Push16Layout(s, v);
    IncrementThenDecrement(s.sp, 1);
    WordOfBytes(v);
  }

  /** The stack object: a cursor and the bus it stores through. */
  class Stack {
    const bus: Bus
    var address: Address

    ghost predicate Valid()
      reads this, bus
    {
      bus.Valid() && address.bank == 0
    }

    ghost function State(): StackState
      reads this, bus
    {
      StackState(address, bus.mem)
    }

    /**
     * `Stack(SystemBus*)`: `setEmulation` applied to a default-initialised address, whose value
     * is indeterminate; `prior` stands for that value, so only bank 0 and the high byte 0x01 are fixed.
     */
    constructor InEmulation(bus: Bus, prior: Address)
      requires bus.Valid()
      ensures Valid() && this.bus == bus
      ensures address == EmulationPointer(prior)
    {
      this.bus := bus;
      address := EmulationPointer(prior);
    }

    /** `Stack(SystemBus*, uint16_t)`: the pointer at the given bank-0 offset. */
    constructor WithPointer(bus: Bus, stackPointer: uint16)
      requires bus.Valid()
      ensures Valid() && this.bus == bus
      ensures address == Address(0, stackPointer)
    {
      this.bus := bus;
      address := Address(0, stackPointer);
    }

    method Push8Bit(v: uint8)
      requires Valid()
      modifies this, bus
      ensures Valid()
      ensures State() == old(State()).Push8(v)
    {
      bus.StoreByte(address, v);
      address := address.DecrementOffsetBy(1);
    }

    method Push16Bit(v: uint16)
      requires Valid()
      modifies this, bus
      ensures Valid()
      ensures State() == old(State()).Push16(v)
    {
      var leastSignificant := Low(v);
      var mostSignificant := High(v);
      Push8Bit(mostSignificant);
      Push8Bit(leastSignificant);
    }

    method Pull8Bit() returns (v: uint8)
      requires Valid()
      modifies this
      ensures Valid()
      ensures (v, State()) == old(State()).Pull8()
    {
      address := address.IncrementOffsetBy(1);
      v := bus.ReadByte(address);
    }

    method Pull16Bit() returns (v: uint16)
      requires Valid()
      modifies this
      ensures Valid()
      ensures (v, State()) == old(State()).Pull16()
    {
      var lo := Pull8Bit();
      var hi := Pull8Bit();
      v := Word(lo, hi);
    }

    /** The offset alone determines the cursor, since it always lies in bank 0. */
    function GetStackPointer(): (sp: uint16)
      reads this, bus
      requires Valid()
      ensures Address(0, sp) == address
    {
      address.offset
    }

    method SetEmulation()
      requires Valid()
      modifies this
      ensures Valid()
      ensures address == EmulationPointer(old(address))
    {
      address := EmulationPointer(address);
    }
  }
}
