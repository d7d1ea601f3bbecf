/** What each kind of driver write does to the chip, sound or not. */
module FlashSteps {
  import opened Bytes
  import opened BatchFormat
  import opened FlashDevice

  /** The memories a batch is about. */
  datatype Memory = Memory(flash: seq<byte>, option: seq<byte>) {
    predicate Shaped() { |flash| == FLASH_SIZE && |option| == OPTION_SIZE }
  }

  function MemoryOf(d: Device): Memory { Memory(d.flash, d.option) }

  /** The bytes at a bus range. */
  function Stored(m: Memory, at: int, n: nat): seq<byte>
    requires m.Shaped() && (InFlash(at, n) || InOption(at, n))
  {
    if InFlash(at, n) then m.flash[at - FLASH_BASE..at - FLASH_BASE + n]
    else m.option[at - OPTION_BASE..at - OPTION_BASE + n]
  }

  /** The bytes at a record's addresses are its payload. */
  ghost predicate Retains(m: Memory, r: Record, payload: seq<byte>) {
    && m.Shaped() && (InFlash(r.address, r.payloadSize) || InOption(r.address, r.payloadSize))
    && Stored(m, r.address, r.payloadSize) == payload
  }

  /** The register view the driver asks for when it clears and sets these masks. */
  function Asked(d: Device, clear: Word, set_: Word): Control { Merge(d.Cr(), View(clear), View(set_)) }

  predicate SameCells(d: Device, d': Device) { d'.flash == d.flash && d'.option == d.option }

  /** Flags, timing and registers apart from the control register. */
  predicate SameStatus(d: Device, d': Device) {
    d'.busy == d.busy && d'.pgErr == d.pgErr && d'.wrpErr == d.wrpErr
  }

  ghost predicate FlashKeptOutside(d: Device, d': Device, from: int, to: int) {
    && |d.flash| == |d'.flash|
    && forall i | 0 <= i < |d.flash| && !(from <= i < to) :: d'.flash[i] == d.flash[i]
  }

  ghost predicate OptionKeptOutside(d: Device, d': Device, from: int, to: int) {
    && |d.option| == |d'.option|
    && forall i | 0 <= i < |d.option| && !(from <= i < to) :: d'.option[i] == d.option[i]
  }

  lemma SameFromAll(d: Device, d': Device)
    requires d.Shaped() && d'.Shaped()
    requires forall i | 0 <= i < FLASH_SIZE :: d'.flash[i] == d.flash[i]
    requires forall i | 0 <= i < OPTION_SIZE :: d'.option[i] == d.option[i]
    ensures SameCells(d, d')
  {}

  /** A control write without a start bit moves no cell, and one with it moves only the
      sector addressed, or the option page, as its mode bits say. */
  lemma ControlCells(d: Device, clear: Word, set_: Word, d': Device, fates: nat -> Fate)
    requires Written(d, CR, 4, Change(d.cr, clear, set_), d', fates)
    ensures d'.Shaped() && d'.ar == d.ar && d'.id == d.id
    ensures !Asked(d, clear, set_).strt || d.Cr().lock ==> SameCells(d, d')
    ensures !Asked(d, clear, set_).mer && !Asked(d, clear, set_).ber ==>
      && FlashKeptOutside(d, d', SectorStart(d.ar), SectorStart(d.ar) + SECTOR_SIZE)
      && (!Asked(d, clear, set_).ser ==> d'.flash == d.flash)
    ensures !Asked(d, clear, set_).opter ==> d'.option == d.option
  {
    hide View, Change, Merge, CrAfter, IdealWrite, SectorStart;
    ViewChange(d.cr, clear, set_);
    assert !InFlash(CR, 4) && !InOption(CR, 4);
    if !Asked(d, clear, set_).strt || d.Cr().lock {
      SameFromAll(d, d');
    }
  }

  /** What the control register holds after a masked update. */
  lemma ControlBitsAfter(d: Device, clear: Word, set_: Word, d': Device, fates: nat -> Fate)
    requires Written(d, CR, 4, Change(d.cr, clear, set_), d', fates)
    ensures d.Cr().lock ==> d'.cr == d.cr
    ensures !d.Cr().lock ==>
      var v := Asked(d, clear, set_);
      d'.Cr() == v.(strt := d'.Cr().strt, optwre := v.optwre && d.Cr().optwre) && (d'.Cr().strt ==> v.strt)
  {
    hide View, Change, Merge, IdealWrite, TouchesFlash, TouchesOption;
    var w := Change(d.cr, clear, set_);
    ViewChange(d.cr, clear, set_);
    var s := if d.Cr().optwre then w else Change(w, Word(0, 0x02, 0, 0), ZERO_WORD);
    MaskedView(w, Word(0, 0x02, 0, 0));
    MaskedView(s, STRT);
  }

  lemma MaskedView(w: Word, m: Word)
    requires m == STRT || m == Word(0, 0x02, 0, 0)
    ensures View(Change(w, m, ZERO_WORD)) == (if m == STRT then View(w).(strt := false) else View(w).(optwre := false))
  {
    hide View, Change, Merge;
    ViewChange(w, m, ZERO_WORD);
    ControlMasks();
    MergeFacts(View(w));
  }

  /** On a sound controller: timing, flags and exactly what a start erases. */
  lemma ControlSound(d: Device, clear: Word, set_: Word, d': Device, fates: nat -> Fate)
    requires Written(d, CR, 4, Change(d.cr, clear, set_), d', fates) && SoundBus(fates)
    ensures !Asked(d, clear, set_).strt ==> SameStatus(d, d')
    ensures var v := Asked(d, clear, set_);
      v.strt && !d.Cr().lock && d.busy == 0 && !v.mer && !v.ber ==>
        && d'.pgErr == d.pgErr && d'.wrpErr == d.wrpErr && (exists t: nat :: d'.busy == fates(t).delay)
        && d'.flash == (if v.ser then Erase(d.flash, SectorStart(d.ar), SectorStart(d.ar) + SECTOR_SIZE) else d.flash)
        && d'.option == (if v.opter && d.Cr().optwre then Erase(d.option, 0, OPTION_SIZE) else d.option)
  {
    hide View, Change, Merge, CrAfter, Contained, SectorStart, Erase;
    ViewChange(d.cr, clear, set_);
    assert !InFlash(CR, 4) && !InOption(CR, 4);
    var t: nat :| d' == IdealWrite(d, CR, 4, Change(d.cr, clear, set_), fates(t).delay);
  }

  const NO_FLAGS := Control(false, false, false, false, false, false, false, false, false)

  lemma ControlMasks()
    ensures View(ZERO_WORD) == NO_FLAGS
    ensures View(Word(0, 0x02, 0, 0)) == NO_FLAGS.(optwre := true)
    ensures View(STRT) == NO_FLAGS.(strt := true)
    ensures View(SER) == NO_FLAGS.(ser := true)
    ensures View(OPTER) == NO_FLAGS.(opter := true)
    ensures View(PG) == NO_FLAGS.(pg := true)
  {}

  /** The wider masks the driver uses. */
  const ERASE_AND_MODES := Word(0x3f, 0, 0, 0)  // ERASE_MASK | PG | OPTPG
  const ERASE_AND_STRT := Word(0x6e, 0, 0, 0)   // ERASE_MASK | STRT
  const ERASE_AND_PG := Word(0x2f, 0, 0, 0)     // ERASE_MASK | PG
  const ERASE_AND_OPTPG := Word(0x3e, 0, 0, 0)  // ERASE_MASK | OPTPG
  const BOTH_PG := Word(0x11, 0, 0, 0)          // PG | OPTPG

  lemma WideMasks()
    ensures View(ERASE_AND_MODES) == Control(true, true, true, true, true, true, false, false, false)
    ensures View(ERASE_AND_STRT) == Control(false, true, true, true, false, true, true, false, false)
    ensures View(ERASE_AND_PG) == Control(true, true, true, true, false, true, false, false, false)
    ensures View(ERASE_AND_OPTPG) == Control(false, true, true, true, true, true, false, false, false)
    ensures View(BOTH_PG) == Control(true, false, false, false, true, false, false, false, false)
  {}

  lemma MergeFacts(c: Control)
    ensures Merge(c, NO_FLAGS.(optwre := true), NO_FLAGS) == c.(optwre := false)
    ensures Merge(c, NO_FLAGS.(strt := true), NO_FLAGS) == c.(strt := false)
  {}

  /** A data write into flash: nothing but the addressed cells moves. */
  lemma FlashData(d: Device, addr: u32, w: Word, d': Device, fates: nat -> Fate)
    requires Written(d, addr, 4, w, d', fates) && InFlash(addr, 4)
    ensures d'.Shaped() && d'.cr == d.cr && d'.ar == d.ar && d'.id == d.id && d'.option == d.option
    ensures FlashKeptOutside(d, d', addr - FLASH_BASE, addr - FLASH_BASE + 4)
    ensures SoundBus(fates) && FlashProgrammable(d) ==>
      && d'.flash == NorPatch(d.flash, addr - FLASH_BASE, LowBytes(w, 4))
      && d'.pgErr == d.pgErr && d'.wrpErr == d.wrpErr && exists t: nat :: d'.busy == fates(t).delay
  {
    hide View, Change, Nor, LowBytes, FromWord;
    assert d'.option == d.option;
    if SoundBus(fates) {
      var t: nat :| d' == IdealWrite(d, addr, 4, w, fates(t).delay);
    }
  }

  /** A half-word write into the option page. */
  lemma OptionData(d: Device, addr: u32, w: Word, d': Device, fates: nat -> Fate)
    requires Written(d, addr, 2, w, d', fates) && InOption(addr, 2)
    ensures d'.Shaped() && d'.cr == d.cr && d'.ar == d.ar && d'.id == d.id && d'.flash == d.flash
    ensures OptionKeptOutside(d, d', addr - OPTION_BASE, addr - OPTION_BASE + 2)
    ensures SoundBus(fates) && OptionProgrammable(d) ==>
      && d'.option == NorPatch(d.option, addr - OPTION_BASE, LowBytes(w, 2))
      && d'.pgErr == d.pgErr && d'.wrpErr == d.wrpErr && exists t: nat :: d'.busy == fates(t).delay
  {
    hide View, Change, Nor, LowBytes, FromWord;
    assert d'.flash == d.flash;
    if SoundBus(fates) {
      var t: nat :| d' == IdealWrite(d, addr, 2, w, fates(t).delay);
    }
  }

  const CLEAR_STATUS := Word(0x34, 0, 0, 0)  // PGERR | WRPRTERR | EOP

  /** Clearing the status flags. */
  lemma StatusCleared(d: Device, d': Device, fates: nat -> Fate)
    requires Written(d, SR, 4, CLEAR_STATUS, d', fates)
    ensures d'.Shaped() && d'.cr == d.cr && d'.ar == d.ar && d'.id == d.id && SameCells(d, d')
    ensures SoundBus(fates) ==> !d'.pgErr && !d'.wrpErr && d'.busy == d.busy
  {
    hide View, Change, FromWord;
    assert !InFlash(SR, 4) && !InOption(SR, 4);
    SameFromAll(d, d');
  }

  /** Setting the erase address. */
  lemma AddressSet(d: Device, at: u32, d': Device, fates: nat -> Fate)
    requires Written(d, AR, 4, ToWord(at), d', fates)
    ensures d'.Shaped() && d'.cr == d.cr && d'.ar == at && d'.id == d.id && SameCells(d, d')
    ensures SoundBus(fates) ==> SameStatus(d, d')
  {
    hide View, Change, FromWord, ToWord;
    WordRoundTrip(at);
    assert !InFlash(AR, 4) && !InOption(AR, 4);
    SameFromAll(d, d');
  }

  /** Unlock keys move no cell and no flag besides the locks. */
  lemma KeyWritten(d: Device, addr: u32, w: Word, d': Device, fates: nat -> Fate)
    requires Written(d, addr, 4, w, d', fates) && (addr == KEYR || addr == OPTKEYR)
    ensures d'.Shaped() && d'.ar == d.ar && d'.id == d.id && SameCells(d, d')
    ensures SameButLocks(d.Cr(), d'.Cr())
    ensures SoundBus(fates) ==> SameStatus(d, d') && d'.cr == CrAfter(d, addr, 4, w)
    ensures SoundBus(fates) && addr == KEYR ==>
      d'.optKeys == d.optKeys && d'.keys == (if d.keys == 0 && w == KEY1 then 1 else 0)
    ensures SoundBus(fates) && addr == OPTKEYR ==>
      d'.keys == d.keys && d'.optKeys == (if d.optKeys == 0 && w == KEY1 then 1 else 0)
  {
    hide View, Change, FromWord, CrAfter;
    assert !InFlash(addr, 4) && !InOption(addr, 4);
    SameFromAll(d, d');
  }
}
