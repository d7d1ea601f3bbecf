/** Algebra of erasing and programming NOR memory. */
module NorMemory {
  import opened Bytes
  import opened BatchFormat
  import opened FlashDevice

  /** Adjacent patches make one patch. */
  lemma PatchConcat(mem: seq<byte>, at: nat, a: seq<byte>, b: seq<byte>)
    requires at + |a| + |b| <= |mem|
    ensures NorPatch(NorPatch(mem, at, a), at + |a|, b) == NorPatch(mem, at, a + b)
  {
    hide Nor;
  }

  lemma PatchNothing(mem: seq<byte>, at: nat)
    requires at <= |mem|
    ensures NorPatch(mem, at, []) == mem
  {
    hide Nor;
  }

  /** Bytes that are all ones program nothing. */
  lemma PatchOnes(mem: seq<byte>, at: nat, bytes: seq<byte>)
    requires at + |bytes| <= |mem|
    requires forall i | 0 <= i < |bytes| :: bytes[i] == ERASED
    ensures NorPatch(mem, at, bytes) == mem
  {
    forall i | 0 <= i < |mem| ensures NorPatch(mem, at, bytes)[i] == mem[i] {
      NorFacts(mem[i]);
    }
  }

  /** The word the driver sends for up to four bytes: padded with ones. */
  function Padded(bytes: seq<byte>): Word
    requires 0 < |bytes| <= 4
  {
    Word(bytes[0], if |bytes| > 1 then bytes[1] else ERASED, if |bytes| > 2 then bytes[2] else ERASED,
         if |bytes| > 3 then bytes[3] else ERASED)
  }

  /** Padding does not show in the memory. */
  lemma PatchPadded(mem: seq<byte>, at: nat, bytes: seq<byte>)
    requires 0 < |bytes| <= 4 && at + 4 <= |mem|
    ensures NorPatch(mem, at, LowBytes(Padded(bytes), 4)) == NorPatch(mem, at, bytes)
  {
    forall b: byte ensures Nor(b, ERASED) == b { NorFacts(b); }
    hide Nor;
  }

  /** A skipped all-ones word would have changed nothing. */
  lemma PatchSkipped(mem: seq<byte>, at: nat, bytes: seq<byte>)
    requires 0 < |bytes| <= 4 && at + |bytes| <= |mem| && Padded(bytes) == ALL_ONES_WORD
    ensures NorPatch(mem, at, bytes) == mem
  {
    PatchOnes(mem, at, bytes);
  }

  /** Programming erased cells leaves exactly the payload. */
  lemma PatchErased(mem: seq<byte>, at: nat, bytes: seq<byte>)
    requires at + |bytes| <= |mem|
    requires forall i | at <= i < at + |bytes| :: mem[i] == ERASED
    ensures NorPatch(mem, at, bytes)[at..at + |bytes|] == bytes
  {
    forall i | 0 <= i < |bytes| ensures NorPatch(mem, at, bytes)[at + i] == bytes[i] {
      NorFacts(bytes[i]);
    }
  }

  lemma EraseConcat(mem: seq<byte>, a: int, b: int, c: int)
    requires a <= b <= c
    ensures Erase(Erase(mem, a, b), b, c) == Erase(mem, a, c)
  {}

  lemma EraseNothing(mem: seq<byte>, a: int)
    ensures Erase(mem, a, a) == mem
  {}

  /** The sectors a record's erase covers, as flash offsets. */
  function SpanStart(address: int): int { address / SECTOR_SIZE * SECTOR_SIZE - FLASH_BASE }

  function SpanEnd(end: int): int { (end + SECTOR_SIZE - 1) / SECTOR_SIZE * SECTOR_SIZE - FLASH_BASE }

  /** A length rounded up to whole words. */
  function Ceil4(n: int): int { (n + 3) / 4 * 4 }

  /** Word-aligned ranges that share no byte share no word either, so the padding of one
      record's last word never reaches into another record. */
  lemma PaddedDisjoint(a: Record, b: Record, x: int)
    requires Disjoint(a, b) && a.address % 4 == 0 && b.address % 4 == 0
    requires a.address <= x < a.AddressEnd()
    ensures !(b.address <= x < b.address + Ceil4(b.payloadSize))
  {
    if b.AddressEnd() <= a.address {
      Multiple(a.address, 4);
      Multiple(b.address, 4);
      WordsWithin(b.payloadSize, a.address / 4 - b.address / 4);
    }
  }

  lemma Multiple(a: int, m: nat)
    requires m > 0 && a % m == 0
    ensures a == m * (a / m)
  {}

  /** What fits a number of whole words still fits them rounded up. */
  lemma WordsWithin(n: int, words: int)
    requires n <= 4 * words
    ensures Ceil4(n) <= 4 * words
  {
    var w := (n + 3) / 4;
    assert 4 * w <= n + 3;
  }
}
