/** The 24-bit bank:offset address of the 65816 bus and the contract every bus device follows. */
module Addressing {
  import opened Bytes

  /** Bytes in one 64K bank. */
  const BANK_SIZE_BYTES: int := 0x1_0000

  /** A location on the bus: an 8-bit bank and a 16-bit offset within it. */
  datatype Address = Address(bank: uint8, offset: uint16) {

    /** `bank << 16 | offset`; the offset has 16 bits, so this is bank * 0x10000 + offset. */
    function Absolute(): (r: uint32)
    {
      bank * BANK_SIZE_BYTES + offset
    }

    /** The pair written through the two out-pointers of `getBankAndOffset`. */
    function GetBankAndOffset(): (r: (uint8, uint16))
      ensures Address(r.0, r.1) == this
    {
      (bank, offset)
    }

    /** The offset moved up by `n` within the same bank, wrapping at 64K. */
    function IncrementOffsetBy(n: uint16): (r: Address)
    {
      Address(bank, (offset + n) % BANK_SIZE_BYTES)
    }

    /** The offset moved down by `n` within the same bank, wrapping at 64K. */
    function DecrementOffsetBy(n: uint16): (r: Address)
    {
      Address(bank, (offset - n) % BANK_SIZE_BYTES)
    }
  }

  /** The address `((abs >> 16) & 0xFF, abs & 0xFFFF)` that devices build from a 32-bit distance. */
  function FromAbsolute(abs: uint32): (r: Address)
    ensures abs < 0x100_0000 ==> r.Absolute() == abs
  {
    Address((abs / BANK_SIZE_BYTES) % 0x100, abs % BANK_SIZE_BYTES)
  }

  /** The absolute value fits in 24 bits, and its top byte and low 16 bits are the bank and the offset. */
  lemma AbsoluteBounds(a: Address)
    ensures a.Absolute() < 0x100_0000
    ensures a.Absolute() / BANK_SIZE_BYTES == a.bank && a.Absolute() % BANK_SIZE_BYTES == a.offset
  {
  }

  /** Splitting an address's absolute value gives the same bank and offset back. */
  lemma SplitJoin(a: Address)
    ensures FromAbsolute(a.Absolute()) == a
  {
  }

  /** Two addresses with the same absolute value are the same address. */
  lemma AbsoluteInjective(a: Address, b: Address)
    requires a.Absolute() == b.Absolute()
    ensures a == b
  {
    assert a.bank == a.Absolute() / BANK_SIZE_BYTES == b.bank;
  }

  /** Moving the offset up and then down by the same amount returns to the start. */
  lemma IncrementThenDecrement(a: Address, n: uint16)
    ensures a.IncrementOffsetBy(n).DecrementOffsetBy(n) == a
    ensures a.DecrementOffsetBy(n).IncrementOffsetBy(n) == a
  {
  }

  /** Two moves up compose into one, and a move down followed by a shorter move up is a shorter move down. */
  lemma OffsetArithmetic(a: Address, k: uint16, n: uint16)
    ensures k + n < 0x1_0000 ==> a.IncrementOffsetBy(k).IncrementOffsetBy(n) == a.IncrementOffsetBy(k + n)
    ensures n <= k ==> a.DecrementOffsetBy(k).IncrementOffsetBy(n) == a.DecrementOffsetBy(k - n)
  {
    var o := a.offset;
    if k + n < 0x1_0000 {
      if o + k < BANK_SIZE_BYTES {
        assert a.IncrementOffsetBy(k).offset == o + k;
      } else {
        assert a.IncrementOffsetBy(k).offset == o + k - BANK_SIZE_BYTES;
      }
    }
    if n <= k {
      if o >= k {
        assert a.DecrementOffsetBy(k).offset == o - k;
        assert a.DecrementOffsetBy(k - n).offset == o - k + n;
      } else if o - k + n >= 0 {
        assert a.DecrementOffsetBy(k).offset == o - k + BANK_SIZE_BYTES;
        assert a.DecrementOffsetBy(k - n).offset == o - k + n;
      } else {
        assert a.DecrementOffsetBy(k).offset == o - k + BANK_SIZE_BYTES;
        assert a.DecrementOffsetBy(k - n).offset == o - k + n + BANK_SIZE_BYTES;
      }
    }
  }
}
