/** Bytes, little-endian words and the two ways the firmware looks at a word:
    as four bytes of memory and as a number. */
module Bytes {
  type byte = bv8

  type u32 = x: int | 0 <= x < 0x1_0000_0000

  datatype Word = Word(b0: byte, b1: byte, b2: byte, b3: byte)

  const ERASED: byte := 0xff
  const ALL_ONES_WORD := Word(0xff, 0xff, 0xff, 0xff)
  const ZERO_WORD := Word(0, 0, 0, 0)

  function Value(b: byte): (n: nat)
    ensures n < 256
  {
    b as int
  }

  function Lane(x: nat): byte { (x % 256) as bv8 }

  lemma LaneValue(x: nat)
    ensures Value(Lane(x)) == x % 256
  {
    SmallValue(x % 256);
  }

  lemma SmallValue(y: nat)
    requires y < 256
    ensures Value(y as bv8) == y
  {}

  function ToWord(x: u32): Word {
    Word(Lane(x), Lane(x / 0x100), Lane(x / 0x1_0000), Lane(x / 0x100_0000))
  }

  function FromWord(w: Word): u32 {
    Value(w.b0) + 0x100 * Value(w.b1) + 0x1_0000 * Value(w.b2) + 0x100_0000 * Value(w.b3)
  }

  lemma Digits(x: u32)
    ensures x == x % 256 + 0x100 * ((x / 0x100) % 256) + 0x1_0000 * ((x / 0x1_0000) % 256) + 0x100_0000 * ((x / 0x100_0000) % 256)
  {}

  lemma WordRoundTrip(x: u32)
    ensures FromWord(ToWord(x)) == x
  {
    hide Lane, Value;
    Digits(x);
    LaneValue(x);
    LaneValue(x / 0x100);
    LaneValue(x / 0x1_0000);
    LaneValue(x / 0x100_0000);
  }

  function Mask(b: byte, clear: byte, set_: byte): byte { (b & !clear) | set_ }

  /** A byte's bits, lowest first. */
  datatype Bits = Bits(x0: bool, x1: bool, x2: bool, x3: bool, x4: bool, x5: bool, x6: bool, x7: bool)

  function ToBits(b: byte): Bits {
    Bits(b & 0x01 != 0, b & 0x02 != 0, b & 0x04 != 0, b & 0x08 != 0,
         b & 0x10 != 0, b & 0x20 != 0, b & 0x40 != 0, b & 0x80 != 0)
  }

  function MergeBits(b: Bits, clear: Bits, set_: Bits): Bits {
    Bits((b.x0 && !clear.x0) || set_.x0, (b.x1 && !clear.x1) || set_.x1,
         (b.x2 && !clear.x2) || set_.x2, (b.x3 && !clear.x3) || set_.x3,
         (b.x4 && !clear.x4) || set_.x4, (b.x5 && !clear.x5) || set_.x5,
         (b.x6 && !clear.x6) || set_.x6, (b.x7 && !clear.x7) || set_.x7)
  }

  lemma MaskBits(b: byte, clear: byte, set_: byte)
    ensures ToBits(Mask(b, clear, set_)) == MergeBits(ToBits(b), ToBits(clear), ToBits(set_))
  {}

  /** The masked update `(w & ~clear) | set`. */
  function Change(w: Word, clear: Word, set_: Word): Word {
    Word(Mask(w.b0, clear.b0, set_.b0), Mask(w.b1, clear.b1, set_.b1),
         Mask(w.b2, clear.b2, set_.b2), Mask(w.b3, clear.b3, set_.b3))
  }

  /** The two access widths the firmware uses, in bytes. */
  predicate IsWidth(n: nat) { n == 2 || n == 4 }

  /** The first n bytes of a word in memory order. */
  function LowBytes(w: Word, n: nat): (s: seq<byte>)
    requires IsWidth(n)
    ensures |s| == n
  {
    if n == 2 then [w.b0, w.b1] else [w.b0, w.b1, w.b2, w.b3]
  }

  function WordAt(mem: seq<byte>, at: nat): Word
    requires at + 4 <= |mem|
  {
    Word(mem[at], mem[at + 1], mem[at + 2], mem[at + 3])
  }

  /** What a NOR cell holds after programming: bits only ever go from one to zero. */
  function Nor(old_: byte, new_: byte): byte { old_ & new_ }

  lemma NorFacts(b: byte)
    ensures Nor(ERASED, b) == b
    ensures Nor(b, ERASED) == b
  {}
}
