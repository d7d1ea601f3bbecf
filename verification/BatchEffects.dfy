/** What a batch does to the target's memory when every step works, and which earlier
    records a later one can disturb. */
module BatchEffects {
  import opened Bytes
  import opened BatchFormat
  import opened FlashDevice
  import opened FlashSteps
  import opened NorMemory
  import opened Packing

  /** A record the programmer can be handed: from an accepted batch. */
  ghost predicate Programmable(image: seq<byte>, r: Record) {
    && Supported(r) && r.End() <= |image|
    && (r.kind == OptionBytes ==> r.address == OPTION_BASE && r.payloadSize == OPTION_SIZE && r.eraseOptions == 1)
  }

  ghost predicate AllProgrammable(image: seq<byte>, rs: seq<Record>) {
    forall i | 0 <= i < |rs| :: Programmable(image, rs[i])
  }

  /** The records of a batch: one option record, then pairwise disjoint flash records. */
  ghost predicate BatchRecords(image: seq<byte>, rs: seq<Record>) {
    && AllProgrammable(image, rs) && rs != [] && rs[0].kind == OptionBytes && FlashFrom(rs, 1)
  }

  ghost predicate FlashFrom(rs: seq<Record>, k: nat) {
    && (forall i | k <= i < |rs| :: rs[i].kind == Flash)
    && (forall i, j | k <= i < j < |rs| :: Disjoint(rs[i], rs[j]))
  }

  /** An accepted file yields such records. */
  lemma BatchProgrammable(image: seq<byte>, rs: seq<Record>)
    requires IsBatch(image, rs)
    ensures BatchRecords(image, rs) && AllProgrammable(image, rs)
  {
    hide Supported, Disjoint, SameKindDisjoint, AllAccepted, Complete;
    BatchShape(image, rs);
    forall i | 0 <= i < |rs| ensures Programmable(image, rs[i]) {
      TiledStart(image, rs, i);
      assert rs[i].kind == OptionBytes ==> i == 0;
    }
  }

  lemma ProgrammableBounds(image: seq<byte>, r: Record)
    requires Programmable(image, r)
    ensures |PayloadOf(image, r)| == r.payloadSize > 0
    ensures r.kind == Flash ==>
      0 <= r.address - FLASH_BASE && r.address - FLASH_BASE + r.payloadSize <= r.address - FLASH_BASE + Ceil4(r.payloadSize) <= FLASH_SIZE
    ensures r.kind == Flash ==> InFlash(r.address, r.payloadSize) && !InOption(r.address, r.payloadSize)
    ensures r.kind == OptionBytes ==> InOption(r.address, r.payloadSize) && !InFlash(r.address, r.payloadSize)
    ensures r.kind == OptionBytes ==> InOption(r.address, Ceil4(r.payloadSize))
    ensures r.kind == Flash ==> InFlash(r.address, Ceil4(r.payloadSize))
    ensures r.address % 4 == 0
  {
    hide Fields;
  }

  /** Erase if asked to, then program. */
  function RecordEffect(image: seq<byte>, m: Memory, r: Record): Memory
    requires Programmable(image, r) && m.Shaped()
  {
    ProgrammableBounds(image, r);
    var payload := PayloadOf(image, r);
    match r.kind
    case Flash =>
      var base := if r.eraseOptions == 1 then Erase(m.flash, SpanStart(r.address), SpanEnd(r.AddressEnd())) else m.flash;
      m.(flash := NorPatch(base, r.address - FLASH_BASE, payload))
    case OptionBytes =>
      m.(option := NorPatch(Erase(m.option, 0, OPTION_SIZE), 0, payload))
  }

  function Replay(image: seq<byte>, m: Memory, rs: seq<Record>): (r: Memory)
    requires AllProgrammable(image, rs) && m.Shaped()
    ensures r.Shaped()
  {
    if rs == [] then m
    else RecordEffect(image, Replay(image, m, rs[..|rs| - 1]), rs[|rs| - 1])
  }

  ghost predicate Retained(image: seq<byte>, m: Memory, r: Record) { Retains(m, r, PayloadOf(image, r)) }

  /** An erasing record is always stored exactly right after its turn. */
  lemma ErasedRecordRetained(image: seq<byte>, m: Memory, r: Record)
    requires Programmable(image, r) && m.Shaped() && r.eraseOptions == 1
    ensures Retained(image, RecordEffect(image, m, r), r)
  {
    hide NorPatch, Erase, Supported;
    ProgrammableBounds(image, r);
    var payload := PayloadOf(image, r);
    if r.kind == Flash {
      var base := Erase(m.flash, SpanStart(r.address), SpanEnd(r.AddressEnd()));
      ErasedInside(m.flash, SpanStart(r.address), SpanEnd(r.AddressEnd()), r.address - FLASH_BASE, r.payloadSize);
      PatchErased(base, r.address - FLASH_BASE, payload);
      PatchLength(base, r.address - FLASH_BASE, payload);
    } else {
      var base := Erase(m.option, 0, OPTION_SIZE);
      ErasedInside(m.option, 0, OPTION_SIZE, 0, OPTION_SIZE);
      PatchErased(base, 0, payload);
      PatchLength(base, 0, payload);
    }
  }

  lemma PatchLength(mem: seq<byte>, at: nat, bytes: seq<byte>)
    requires at + |bytes| <= |mem|
    ensures |NorPatch(mem, at, bytes)| == |mem|
  {}

  lemma ErasedInside(mem: seq<byte>, from: int, to: int, at: nat, n: nat)
    requires from <= at && at + n <= to && at + n <= |mem|
    ensures |Erase(mem, from, to)| == |mem|
    ensures forall i | at <= i < at + n :: Erase(mem, from, to)[i] == ERASED
  {}

  // ---- disturbance -----------------------------------------------------------------------------

  /** The erase of the later record stays clear of the earlier record's payload. */
  ghost predicate Spares(earlier: Record, later: Record) {
    later.eraseOptions == 1 ==>
      earlier.AddressEnd() - FLASH_BASE <= SpanStart(later.address) || SpanEnd(later.AddressEnd()) <= earlier.address - FLASH_BASE
  }

  /** No erase reaches back into flash programmed before it. */
  ghost predicate EarlierSpared(rs: seq<Record>) {
    forall i, j | 1 <= i < j < |rs| :: Spares(rs[i], rs[j])
  }

  /** The flash offsets processing a flash record may change: its sectors, or its words. */
  function FootFrom(r: Record): int {
    if r.eraseOptions == 1 then SpanStart(r.address) else r.address - FLASH_BASE
  }

  function FootTo(r: Record): int {
    if r.eraseOptions == 1 then SpanEnd(r.AddressEnd()) else r.address - FLASH_BASE + Ceil4(r.payloadSize)
  }

  /** Disjoint, spared flash records do not disturb each other at all. */
  lemma FootprintSpares(earlier: Record, later: Record, i: int)
    requires Supported(earlier) && Supported(later) && earlier.kind == Flash && later.kind == Flash
    requires Disjoint(earlier, later) && Spares(earlier, later)
    requires earlier.address - FLASH_BASE <= i < earlier.AddressEnd() - FLASH_BASE
    ensures !(FootFrom(later) <= i < FootTo(later))
  {
    if later.eraseOptions != 1 {
      PaddedDisjoint(earlier, later, i + FLASH_BASE);
    }
  }

  /** A record's words lie inside its erased sectors. */
  lemma WordsInSpan(r: Record)
    requires Supported(r) && r.kind == Flash && r.eraseOptions == 1
    ensures SpanStart(r.address) == r.address - FLASH_BASE
    ensures r.address - FLASH_BASE + Ceil4(r.payloadSize) <= SpanEnd(r.AddressEnd())
  {
    hide Fields, SupportedRunFlags;
    assert r.address % SECTOR_SIZE == 0;
    RoundedUp(r.address, r.payloadSize);
  }

  lemma RoundedUp(a: int, n: nat)
    requires a % SECTOR_SIZE == 0
    ensures a + Ceil4(n) <= (a + n + SECTOR_SIZE - 1) / SECTOR_SIZE * SECTOR_SIZE
  {
    hide Ceil4;
    var k, q := a / 4096, (a + n + 4095) / 4096;
    Multiple(a, 4096);
    assert a + n + 4095 < 4096 * q + 4096;
    WordsWithin(n, 1024 * (q - k));
  }

  // ---- exactly when a replayed batch ends up stored ---------------------------------------------

  /** Where a later erase meets an earlier payload, the payload is all ones there. */
  ghost predicate Harmless(image: seq<byte>, earlier: Record, later: Record) {
    later.eraseOptions == 1 ==>
      forall x | 0 <= x < earlier.payloadSize && x < |PayloadOf(image, earlier)| &&
        SpanStart(later.address) <= earlier.address - FLASH_BASE + x < SpanEnd(later.AddressEnd()) ::
        PayloadOf(image, earlier)[x] == ERASED
  }

  /** One cell of an earlier flash record after a later one's turn. */
  lemma LaterCell(image: seq<byte>, m: Memory, earlier: Record, later: Record, x: nat)
    requires Programmable(image, earlier) && Programmable(image, later) && m.Shaped()
    requires earlier.kind == Flash && later.kind == Flash && Disjoint(earlier, later) && x < earlier.payloadSize
    ensures var i := earlier.address - FLASH_BASE + x;
      && 0 <= i < FLASH_SIZE
      && RecordEffect(image, m, later).flash[i] ==
        (if later.eraseOptions == 1 && SpanStart(later.address) <= i < SpanEnd(later.AddressEnd()) then ERASED else m.flash[i])
  {
    hide Nor, Fields;
    ProgrammableBounds(image, earlier);
    ProgrammableBounds(image, later);
  }

  /** Erased cells that a later erase reaches stay erased or keep their value: once a cell
      of an earlier record is all ones it stays so through every later record. */
  lemma {:induction false} CellAfter(image: seq<byte>, m: Memory, rs: seq<Record>, k: nat, x: nat)
    requires AllProgrammable(image, rs) && m.Shaped() && k < |rs| && rs[k].kind == Flash && x < rs[k].payloadSize
    requires FlashFrom(rs, k)
    ensures var i := rs[k].address - FLASH_BASE + x;
      && 0 <= i < FLASH_SIZE
      && var before := Replay(image, m, rs[..k + 1]).flash[i];
      Replay(image, m, rs).flash[i] ==
        (if exists j :: k < j < |rs| && Reaches(rs[j], i) then ERASED else before)
    decreases |rs|
  {
    hide RecordEffect, Programmable;
    var i := rs[k].address - FLASH_BASE + x;
    CellInFlash(image, rs[k], x);
    if |rs| == k + 1 {
      assert rs[..k + 1] == rs;
    } else {
      var front, last := rs[..|rs| - 1], rs[|rs| - 1];
      CellAfter(image, m, front, k, x);
      assert front[..k + 1] == rs[..k + 1];
      assert Disjoint(rs[k], rs[|rs| - 1]);
      LaterCell(image, Replay(image, m, front), rs[k], last, x);
      assert forall j | k < j < |front| :: front[j] == rs[j];
      if Reaches(last, i) {
        assert Reaches(rs[|rs| - 1], i);
      }
    }
  }

  predicate Reaches(r: Record, i: int) {
    r.eraseOptions == 1 && SpanStart(r.address) <= i < SpanEnd(r.AddressEnd())
  }

  lemma CellInFlash(image: seq<byte>, r: Record, x: nat)
    requires Programmable(image, r) && r.kind == Flash && x < r.payloadSize
    ensures 0 <= r.address - FLASH_BASE + x < FLASH_SIZE
  {
    ProgrammableBounds(image, r);
  }

  /** A record retained at its turn is retained at the end exactly when every later erase
      that reaches one of its cells finds all ones there. */
  lemma RetainedIff(image: seq<byte>, m: Memory, rs: seq<Record>, k: nat)
    requires AllProgrammable(image, rs) && m.Shaped() && k < |rs| && rs[k].kind == Flash
    requires FlashFrom(rs, k)
    requires Retained(image, Replay(image, m, rs[..k + 1]), rs[k])
    ensures Retained(image, Replay(image, m, rs), rs[k]) <==> forall j | k < j < |rs| :: Harmless(image, rs[k], rs[j])
  {
    hide Programmable, Replay, SpanStart, SpanEnd;
    var r, payload := rs[k], PayloadOf(image, rs[k]);
    var before, after := Replay(image, m, rs[..k + 1]), Replay(image, m, rs);
    ProgrammableBounds(image, r);
    var at := r.address - FLASH_BASE;
    assert Stored(before, r.address, r.payloadSize) == before.flash[at..at + r.payloadSize];
    forall x | 0 <= x < r.payloadSize
      ensures before.flash[at + x] == payload[x]
      ensures after.flash[at + x] == (if exists j :: k < j < |rs| && Reaches(rs[j], at + x) then ERASED else payload[x])
    {
      assert before.flash[at + x] == Stored(before, r.address, r.payloadSize)[x];
      CellAfter(image, m, rs, k, x);
    }
    if Retained(image, after, r) {
      forall j | k < j < |rs| ensures Harmless(image, r, rs[j]) {
        forall x | 0 <= x < r.payloadSize && Reaches(rs[j], at + x) ensures payload[x] == ERASED {
          assert after.flash[at + x] == Stored(after, r.address, r.payloadSize)[x];
        }
      }
    }
    if forall j | k < j < |rs| :: Harmless(image, r, rs[j]) {
      forall x | 0 <= x < r.payloadSize ensures after.flash[at + x] == payload[x] {
        if j :| k < j < |rs| && Reaches(rs[j], at + x) {
          assert Harmless(image, r, rs[j]);
        }
      }
      assert Stored(after, r.address, r.payloadSize) == payload;
    }
  }

  /** Flash records leave the option page alone. */
  lemma {:induction false} OptionPageStays(image: seq<byte>, m: Memory, rs: seq<Record>, k: nat)
    requires AllProgrammable(image, rs) && m.Shaped() && k <= |rs|
    requires forall j | k <= j < |rs| :: rs[j].kind == Flash
    ensures Replay(image, m, rs).option == Replay(image, m, rs[..k]).option
    decreases |rs|
  {
    hide Programmable, NorPatch, Erase;
    if |rs| > k {
      var front := rs[..|rs| - 1];
      OptionPageStays(image, m, front, k);
      assert front[..k] == rs[..k];
    } else {
      assert rs[..k] == rs;
    }
  }

  /** Every record of the batch reads back as its payload at the moment it is verified. */
  ghost predicate VerifiesThroughout(image: seq<byte>, m: Memory, rs: seq<Record>)
    requires AllProgrammable(image, rs) && m.Shaped()
  {
    forall k | 0 <= k < |rs| :: Retained(image, Replay(image, m, rs[..k + 1]), rs[k])
  }

  /** The exact condition for a batch that verified step by step to be stored in full at the
      end: no erase ever reached back over programmed cells other than all-ones ones. */
  lemma StoredIff(image: seq<byte>, m: Memory, rs: seq<Record>)
    requires BatchRecords(image, rs) && m.Shaped()
    requires VerifiesThroughout(image, m, rs)
    ensures (forall k | 0 <= k < |rs| :: Retained(image, Replay(image, m, rs), rs[k]))
      <==> (forall i, j | 1 <= i < j < |rs| :: Harmless(image, rs[i], rs[j]))
  {
    hide Replay, Programmable, Retained, Harmless, Disjoint, VerifiesThroughout;
    TurnRetained(image, m, rs, 0);
    OptionRetained(image, m, rs);
    forall k | 1 <= k < |rs|
      ensures Retained(image, Replay(image, m, rs), rs[k]) <==> forall j | k < j < |rs| :: Harmless(image, rs[k], rs[j])
    {
      TurnRetained(image, m, rs, k);
      RetainedIff(image, m, rs, k);
    }
  }

  lemma TurnRetained(image: seq<byte>, m: Memory, rs: seq<Record>, k: nat)
    requires AllProgrammable(image, rs) && m.Shaped() && k < |rs| && VerifiesThroughout(image, m, rs)
    ensures Retained(image, Replay(image, m, rs[..k + 1]), rs[k])
  {
    hide Replay, Programmable, Retained;
  }

  lemma OptionRetained(image: seq<byte>, m: Memory, rs: seq<Record>)
    requires BatchRecords(image, rs) && m.Shaped()
    requires Retained(image, Replay(image, m, rs[..1]), rs[0])
    ensures Retained(image, Replay(image, m, rs), rs[0])
  {
    hide Replay, Programmable, Disjoint;
    OptionPageStays(image, m, rs, 1);
    ProgrammableBounds(image, rs[0]);
  }

  /** With every flash record erasing first, a clean run never fails verification. */
  lemma ErasingBatchVerifies(image: seq<byte>, m: Memory, rs: seq<Record>)
    requires AllProgrammable(image, rs) && m.Shaped()
    requires forall i | 0 <= i < |rs| :: rs[i].eraseOptions == 1
    ensures VerifiesThroughout(image, m, rs)
  {
    hide Programmable, Retained, RecordEffect;
    forall k | 0 <= k < |rs| ensures Retained(image, Replay(image, m, rs[..k + 1]), rs[k]) {
      assert rs[..k + 1][..k] == rs[..k];
      ErasedRecordRetained(image, Replay(image, m, rs[..k]), rs[k]);
    }
  }

  /** Without an erase, a record verifies exactly when no payload bit has to go from zero to one. */
  lemma UnerasedRetainedIff(image: seq<byte>, m: Memory, r: Record)
    requires Programmable(image, r) && m.Shaped() && r.kind == Flash && r.eraseOptions == 0
    ensures Retained(image, RecordEffect(image, m, r), r) <==>
      forall x | 0 <= x < r.payloadSize && 0 <= r.address - FLASH_BASE + x < FLASH_SIZE && x < |PayloadOf(image, r)| ::
        m.flash[r.address - FLASH_BASE + x] | PayloadOf(image, r)[x] == m.flash[r.address - FLASH_BASE + x]
  {
    hide Nor, Programmable, Retains, Retained, PayloadOf, NorPatch, RecordEffect;
    ProgrammableBounds(image, r);
    var after := RecordEffect(image, m, r);
    UnerasedEffect(image, m, r);
    RetainedCells(image, after, r);
    forall x | 0 <= x < r.payloadSize
      ensures after.flash[r.address - FLASH_BASE + x] == PayloadOf(image, r)[x] <==>
        m.flash[r.address - FLASH_BASE + x] | PayloadOf(image, r)[x] == m.flash[r.address - FLASH_BASE + x]
    {
      PatchedCell(m.flash, r.address - FLASH_BASE, PayloadOf(image, r), x);
      OnlyClears(m.flash[r.address - FLASH_BASE + x], PayloadOf(image, r)[x]);
    }
  }

  lemma UnerasedEffect(image: seq<byte>, m: Memory, r: Record)
    requires Programmable(image, r) && m.Shaped() && r.kind == Flash && r.eraseOptions == 0
    ensures |PayloadOf(image, r)| == r.payloadSize
    ensures 0 <= r.address - FLASH_BASE && r.address - FLASH_BASE + r.payloadSize <= FLASH_SIZE
    ensures var after := RecordEffect(image, m, r);
      after.Shaped() && after.flash == NorPatch(m.flash, r.address - FLASH_BASE, PayloadOf(image, r))
  {
    hide NorPatch, Supported, PayloadOf, Erase;
    ProgrammableBounds(image, r);
  }

  lemma RetainedCells(image: seq<byte>, m: Memory, r: Record)
    requires Programmable(image, r) && m.Shaped() && r.kind == Flash
    ensures |PayloadOf(image, r)| == r.payloadSize && 0 <= r.address - FLASH_BASE && r.AddressEnd() - FLASH_BASE <= FLASH_SIZE
    ensures Retained(image, m, r) <==>
      forall x | 0 <= x < r.payloadSize :: m.flash[r.address - FLASH_BASE + x] == PayloadOf(image, r)[x]
  {
    hide Supported, PayloadOf;
    ProgrammableBounds(image, r);
    var at, payload := r.address - FLASH_BASE, PayloadOf(image, r);
    if Retained(image, m, r) {
      forall x | 0 <= x < r.payloadSize ensures m.flash[at + x] == payload[x] {
        assert m.flash[at + x] == Stored(m, r.address, r.payloadSize)[x];
      }
    }
  }

  lemma PatchedCell(mem: seq<byte>, at: nat, bytes: seq<byte>, x: nat)
    requires at + |bytes| <= |mem| && x < |bytes|
    ensures |NorPatch(mem, at, bytes)| == |mem| && NorPatch(mem, at, bytes)[at + x] == Nor(mem[at + x], bytes[x])
  {
    hide Nor;
  }

  lemma OnlyClears(cell: byte, value: byte)
    ensures Nor(cell, value) == value <==> cell | value == cell
  {}
}
