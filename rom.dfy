/** A read-only memory image mapped at a base address. The image is given; loading it from a file is not modelled. */
module RomDevice {
  import opened Bytes
  import opened Wrappers
  import opened Addressing

  datatype Rom = Rom(base: Address, image: seq<uint8>) {

    /** `in.getAbsolute() - mBase.getAbsolute()` computed in `uint32_t`: below the base it wraps to a huge value. */
    function Distance(addr: Address): uint32
    {
      (addr.Absolute() - base.Absolute()) % 0x1_0000_0000
    }

    /**
     * The ROM claims an address exactly when its 32-bit distance from the base is inside the image;
     * the decoded address is that distance split into bank and offset.
     */
    function DecodeAddress(addr: Address): (r: Option<Address>)
      ensures r.Some? <==> Distance(addr) < |image|
      ensures r.Some? && |image| <= 0x100_0000 ==> r.value.Absolute() == Distance(addr)
    {
      var d := Distance(addr);
      if d < |image| then Some(FromAbsolute(d)) else None
    }

    /** Reads the image at a decoded (ROM-local) address: always one of the loaded bytes. */
    function ReadByte(a: Address): (r: uint8)
      requires a.Absolute() < |image|
      ensures r in image
      ensures r == image[a.bank as int * BANK_SIZE_BYTES + a.offset as int]
    {
      image[a.Absolute()]
    }

    /** Storing into ROM does nothing. */
    function StoreByte(a: Address, v: uint8): (r: Rom)
      ensures r.image == image && r.base == base
    {
      this
    }
  }

  /** An address below the base wraps to a distance of at least 2^32 - 2^24 and is rejected. */
  lemma BelowBaseRejected(rom: Rom, addr: Address)
    requires |rom.image| <= 0x100_0000
    requires addr.Absolute() < rom.base.Absolute()
    ensures rom.DecodeAddress(addr).None?
  {
  }

  /** An address at or above the base is claimed exactly when it lies inside the image. */
  lemma AboveBaseDecode(rom: Rom, addr: Address)
    requires rom.base.Absolute() <= addr.Absolute()
    ensures rom.DecodeAddress(addr).Some? <==> addr.Absolute() - rom.base.Absolute() < |rom.image|
  {
  }

  /**
   * Reading a claimed address is in bounds and yields the image byte at the distance from the base
   * (for any image that fits the 24-bit address space).
   */
  lemma DecodeThenRead(rom: Rom, addr: Address)
    requires |rom.image| <= 0x100_0000
    requires rom.DecodeAddress(addr).Some?
    ensures rom.base.Absolute() <= addr.Absolute()
    ensures rom.DecodeAddress(addr).value.Absolute() < |rom.image|
    ensures rom.ReadByte(rom.DecodeAddress(addr).value) == rom.image[addr.Absolute() - rom.base.Absolute()]
  {
  }

  /** After any sequence of stores, every address reads the byte originally loaded there. */
  lemma {:induction false} StoresLeaveImage(rom: Rom, stores: seq<(Address, uint8)>, a: Address)
    requires a.Absolute() < |rom.image|
    ensures StoreAll(rom, stores).ReadByte(a) == rom.ReadByte(a)
    decreases |stores|
  {
    if stores != [] {
      StoresLeaveImage(rom.StoreByte(stores[0].0, stores[0].1), stores[1..], a);
    }
  }

  /** The ROM after storing each pair of `stores` in order. */
  function StoreAll(rom: Rom, stores: seq<(Address, uint8)>): (r: Rom)
    ensures |r.image| == |rom.image|
    decreases |stores|
  {
    if stores == [] then rom else StoreAll(rom.StoreByte(stores[0].0, stores[0].1), stores[1..])
  }
}
