/** A RAM chip of a whole number of 64K banks, based at absolute address 0. */
module RamDevice {
  import opened Bytes
  import opened Wrappers
  import opened Addressing

  class Ram {
    /** Number of 64K banks. */
    const banks: uint8
    /** Raw bytes; address bank:offset lives at index bank * 0x10000 + offset. */
    var bytes: array<uint8>

    ghost predicate Valid()
      reads this
    {
      bytes.Length == banks * BANK_SIZE_BYTES
    }

    /** The storage holds exactly `banks` * 64K bytes; their initial values are unspecified. */
    constructor (banks: uint8)
      ensures Valid() && this.banks == banks && fresh(bytes)
    {
      this.banks := banks;
      bytes := new uint8[banks * BANK_SIZE_BYTES];
    }

    /**
     * RAM claims exactly the addresses in its banks and passes them on unchanged,
     * and every address it claims indexes the storage in bounds.
     */
    function DecodeAddress(addr: Address): (r: Option<Address>)
      ensures r.Some? <==> addr.bank < banks
      ensures r.Some? ==> r.value == addr && r.value.Absolute() < banks * BANK_SIZE_BYTES
    {
      if addr.bank < banks then Some(addr) else None
    }

    /** Reads the cell at bank * 0x10000 + offset, which lies inside the storage for every claimed address. */
    function ReadByte(a: Address): (r: uint8)
      reads this, bytes
      requires Valid() && a.bank < banks
      ensures a.bank as int * BANK_SIZE_BYTES + a.offset as int < bytes.Length
      ensures r == bytes[a.bank as int * BANK_SIZE_BYTES + a.offset as int]
    {
      bytes[a.Absolute()]
    }

    /** Stores `v` at `a`: `a` reads back `v` and every other byte keeps its value. */
    method StoreByte(a: Address, v: uint8)
      requires Valid() && a.bank < banks
      modifies bytes
      ensures Valid()
      ensures bytes[..] == old(bytes[..])[a.Absolute() := v]
      ensures ReadByte(a) == v
      ensures forall b: Address :: b.bank < banks && b != a ==> ReadByte(b) == old(ReadByte(b))
    {
      bytes[a.Absolute()] := v;
      forall b: Address | b.bank < banks && b != a
        ensures ReadByte(b) == old(ReadByte(b))
      {
        if b.Absolute() == a.Absolute() {
          AbsoluteInjective(a, b);
        }
      }
    }
  }
}
