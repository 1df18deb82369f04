/** Fixed-width integers of the simulator and the byte-level bit operations its registers use. */
module Bytes {

  type uint8 = x: int | 0 <= x < 0x100
  type uint16 = x: int | 0 <= x < 0x1_0000
  type uint32 = x: int | 0 <= x < 0x1_0000_0000
  type int32 = x: int | -0x8000_0000 <= x < 0x8000_0000

  /** Low byte of a 16-bit value. */
  function Low(w: uint16): uint8 { w % 0x100 }

  /** High byte of a 16-bit value. */
  function High(w: uint16): uint8 { w / 0x100 }

  /** The 16-bit value `hi << 8 | lo`. */
  function Word(lo: uint8, hi: uint8): uint16
  {
    hi * 0x100 + lo
  }

  /** Splitting a word into its bytes and joining them again gives the word back. */
  lemma WordOfBytes(w: uint16)
    ensures Word(Low(w), High(w)) == w
  {
  }

  /** Joining two bytes into a word and splitting it again gives the bytes back. */
  lemma BytesOfWord(lo: uint8, hi: uint8)
    ensures Low(Word(lo, hi)) == lo && High(Word(lo, hi)) == hi
  {
  }

  /** A value reduced modulo 2^16, as a cast to `uint16_t` does. */
  function Wrap16(n: int): uint16
  {
    n % 0x1_0000
  }

  /** A value reduced modulo 2^32 and read back as a two's-complement `int`. */
  function WrapInt32(n: int): int32
  {
    var u := n % 0x1_0000_0000;
    if u < 0x8000_0000 then u else u - 0x1_0000_0000
  }

  /** A value below 16: one hexadecimal digit. */
  type uint4 = x: int | 0 <= x < 0x10

  function BitValue(c: bool): int { if c then 1 else 0 }

  /** The value of four bits, least significant first. */
  function Nibble(c0: bool, c1: bool, c2: bool, c3: bool): uint4
  {
    BitValue(c0) + 2 * BitValue(c1) + 4 * BitValue(c2) + 8 * BitValue(c3)
  }

  /**
   * A byte seen as its eight bits, `b0` the least significant. The simulator's registers are
   * `uint8_t` values combined with `&`, `|` and `~`; here those operators act bit by bit.
   */
  datatype Bits = Bits(b0: bool, b1: bool, b2: bool, b3: bool, b4: bool, b5: bool, b6: bool, b7: bool) {

    /** The byte these bits spell. */
    function Value(): uint8
    {
      Nibble(b0, b1, b2, b3) + 0x10 * Nibble(b4, b5, b6, b7)
    }

    /** `this & m` */
    function And(m: Bits): Bits
    {
      Bits(b0 && m.b0, b1 && m.b1, b2 && m.b2, b3 && m.b3, b4 && m.b4, b5 && m.b5, b6 && m.b6, b7 && m.b7)
    }

    /** `this | m` */
    function Or(m: Bits): Bits
    {
      Bits(b0 || m.b0, b1 || m.b1, b2 || m.b2, b3 || m.b3, b4 || m.b4, b5 || m.b5, b6 || m.b6, b7 || m.b7)
    }

    /** `~this` */
    function Not(): Bits
    {
      Bits(!b0, !b1, !b2, !b3, !b4, !b5, !b6, !b7)
    }

    /** `this & ~m`: the bits of `m` cleared. */
    function Without(m: Bits): Bits
    {
      And(m.Not())
    }

    /** `(this & m) != 0`: some bit of `m` is set here. */
    predicate Has(m: Bits)
    {
      (b0 && m.b0) || (b1 && m.b1) || (b2 && m.b2) || (b3 && m.b3) || (b4 && m.b4) || (b5 && m.b5) || (b6 && m.b6) || (b7 && m.b7)
    }
  }

  /** The byte 0. */
  const NONE := Bits(false, false, false, false, false, false, false, false)

  /** The mask `1 << i`. */
  function Bit(i: nat): Bits
    requires i < 8
  {
    Bits(i == 0, i == 1, i == 2, i == 3, i == 4, i == 5, i == 6, i == 7)
  }

  /** The bits of a byte. */
  function FromValue(v: uint8): Bits
  {
    var lo := v % 0x10;
    var hi := v / 0x10;
    Bits(lo % 2 == 1, lo / 2 % 2 == 1, lo / 4 % 2 == 1, lo / 8 == 1, hi % 2 == 1, hi / 2 % 2 == 1, hi / 4 % 2 == 1, hi / 8 == 1)
  }

  /** Reading a byte's bits and putting them together again gives the byte back. */
  lemma ValueOfBits(v: uint8)
    ensures FromValue(v).Value() == v
  {
    NibbleOfValue(v % 0x10);
    NibbleOfValue(v / 0x10);
  }

  /** Putting bits together into a byte and reading them again gives the same bits. */
  lemma BitsOfValue(b: Bits)
    ensures FromValue(b.Value()) == b
  {
    var lo := Nibble(b.b0, b.b1, b.b2, b.b3);
    var hi := Nibble(b.b4, b.b5, b.b6, b.b7);
    ValueOfNibble(b.b0, b.b1, b.b2, b.b3);
    ValueOfNibble(b.b4, b.b5, b.b6, b.b7);
    JoinNibbles(lo, hi);
  }

  /** A hexadecimal digit is the value of its four bits. */
  lemma NibbleOfValue(n: uint4)
    ensures Nibble(n % 2 == 1, n / 2 % 2 == 1, n / 4 % 2 == 1, n / 8 == 1) == n
  {
  }

  /** Four bits are the bits of their value. */
  lemma ValueOfNibble(c0: bool, c1: bool, c2: bool, c3: bool)
    ensures var n := Nibble(c0, c1, c2, c3);
      (n % 2 == 1) == c0 && (n / 2 % 2 == 1) == c1 && (n / 4 % 2 == 1) == c2 && (n / 8 == 1) == c3
  {
  }

  /** A byte built from two digits splits into the same two digits. */
  lemma JoinNibbles(lo: uint4, hi: uint4)
    ensures (lo + 0x10 * hi) % 0x10 == lo && (lo + 0x10 * hi) / 0x10 == hi
  {
  }
}
