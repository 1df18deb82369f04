/**
 * The system bus as the CPU and its stack see it: a total map from every 24-bit address to a byte.
 * Which device answers an access is left to the device modules; here every address holds a byte.
 */
module Memory {
  import opened Bytes
  import opened Addressing

  /** One byte for each of the 2^24 addresses of the bus. */
  const MEMORY_SIZE: int := 0x100_0000

  /** A full bus image: byte `mem[a.Absolute()]` is what reading `a` returns. */
  predicate IsImage(mem: seq<uint8>) { |mem| == MEMORY_SIZE }

  function Read(mem: seq<uint8>, a: Address): uint8
    requires IsImage(mem)
  {
    mem[a.Absolute()]
  }

  /** The image after storing `v` at `a`: `a` reads back `v` (and `WriteKeeps`: every other address is unchanged). */
  function Write(mem: seq<uint8>, a: Address, v: uint8): (m: seq<uint8>)
    requires IsImage(mem)
    ensures IsImage(m)
    ensures Read(m, a) == v
  {
    mem[a.Absolute() := v]
  }

  /** A store at `a` leaves every other address as it was. */
  lemma WriteKeeps(mem: seq<uint8>, a: Address, v: uint8, b: Address)
    requires IsImage(mem) && b != a
    ensures Read(Write(mem, a, v), b) == Read(mem, b)
  {
    if b.Absolute() == a.Absolute() {
      AbsoluteInjective(a, b);
    }
  }

  /** Two consecutive bytes read little-endian; the second lies one offset up in the same bank. */
  function ReadWord(mem: seq<uint8>, a: Address): uint16
    requires IsImage(mem)
  {
    Word(Read(mem, a), Read(mem, a.IncrementOffsetBy(1)))
  }

  /** The bus object shared by the CPU and its stack. */
  class Bus {
    var mem: seq<uint8>

    ghost predicate Valid()
      reads this
    {
      IsImage(mem)
    }

    constructor (init: seq<uint8>)
      requires IsImage(init)
      ensures Valid() && mem == init
    {
      mem := init;
    }

    function ReadByte(a: Address): uint8
      reads this
      requires Valid()
    {
      Read(mem, a)
    }

    /** `readTwoBytes`: little-endian word at `a`. */
    function ReadTwoBytes(a: Address): uint16
      reads this
      requires Valid()
    {
      ReadWord(mem, a)
    }

    method StoreByte(a: Address, v: uint8)
      requires Valid()
      modifies this
      ensures Valid()
      ensures mem == Write(old(mem), a, v)
    {
      mem := Write(mem, a, v);
    }
  }
}
