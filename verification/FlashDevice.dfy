/** The target chip as its debug bus shows it: an on-chip flash controller over a NOR
    array and a page of option bytes. */
module FlashDevice {
  import opened Bytes
  import opened BatchFormat

  const DEVICE_ID_ADDRESS: u32 := 0x0300_0100
  const KEYR: u32 := 0x4000_1004
  const OPTKEYR: u32 := 0x4000_1008
  const SR: u32 := 0x4000_100c
  const CR: u32 := 0x4000_1010
  const AR: u32 := 0x4000_1014
  const KEY1 := Word(0x23, 0x01, 0x67, 0x45)
  const KEY2 := Word(0xab, 0x89, 0xef, 0xcd)

  // ---- the control register -------------------------------------------------------

  const PG := Word(0x01, 0, 0, 0)
  const SER := Word(0x02, 0, 0, 0)
  const OPTER := Word(0x20, 0, 0, 0)
  const STRT := Word(0x40, 0, 0, 0)

  datatype Control = Control(
    pg: bool, ser: bool, mer: bool, ber: bool, optpg: bool, opter: bool, strt: bool, lock: bool, optwre: bool)

  function View(w: Word): Control {
    var low := ToBits(w.b0);
    Control(low.x0, low.x1, low.x2, low.x3, low.x4, low.x5, low.x6, low.x7, ToBits(w.b1).x1)
  }

  function Merge(c: Control, clear: Control, set_: Control): Control {
    Control((c.pg && !clear.pg) || set_.pg, (c.ser && !clear.ser) || set_.ser,
            (c.mer && !clear.mer) || set_.mer, (c.ber && !clear.ber) || set_.ber,
            (c.optpg && !clear.optpg) || set_.optpg, (c.opter && !clear.opter) || set_.opter,
            (c.strt && !clear.strt) || set_.strt, (c.lock && !clear.lock) || set_.lock,
            (c.optwre && !clear.optwre) || set_.optwre)
  }

  /** A masked update of the register is a masked update of each flag. */
  lemma ViewChange(w: Word, clear: Word, set_: Word)
    ensures View(Change(w, clear, set_)) == Merge(View(w), View(clear), View(set_))
  {
    hide ToBits, Mask;
    MaskBits(w.b0, clear.b0, set_.b0);
    MaskBits(w.b1, clear.b1, set_.b1);
  }

  // ---- state ----------------------------------------------------------------------------

  datatype Device = Device(
    flash: seq<byte>, option: seq<byte>,
    cr: Word, ar: u32, pgErr: bool, wrpErr: bool, eop: bool,
    busy: nat,                  // status reads until the running operation is done
    keys: nat, optKeys: nat,    // how much of each two-key unlock sequence has arrived
    id: Word,
    selfClears: bool)           // whether the controller drops STRT by itself
  {
    ghost predicate Shaped() { |flash| == FLASH_SIZE && |option| == OPTION_SIZE }

    function Cr(): Control { View(cr) }
  }

  predicate InFlash(addr: int, n: nat) { FLASH_BASE <= addr && addr + n <= FLASH_BASE + FLASH_SIZE }

  predicate InOption(addr: int, n: nat) { OPTION_BASE <= addr && addr + n <= OPTION_BASE + OPTION_SIZE }

  predicate Register(addr: int) { addr == KEYR || addr == OPTKEYR || addr == SR || addr == CR || addr == AR || addr == DEVICE_ID_ADDRESS }

  predicate Mapped(addr: int, n: nat) { (n == 4 && Register(addr)) || InFlash(addr, n) || InOption(addr, n) }

  // ---- one bus write, piece by piece -------------------------------------------------------

  function NorPatch(mem: seq<byte>, at: nat, bytes: seq<byte>): (r: seq<byte>)
    requires at + |bytes| <= |mem|
    ensures |r| == |mem|
    ensures forall i | 0 <= i < |mem| ::
      r[i] == if at <= i < at + |bytes| then Nor(mem[i], bytes[i - at]) else mem[i]
  {
    seq(|mem|, i requires 0 <= i < |mem| => if at <= i < at + |bytes| then Nor(mem[i], bytes[i - at]) else mem[i])
  }

  function Erase(mem: seq<byte>, from: int, to: int): (r: seq<byte>)
    ensures |r| == |mem|
    ensures forall i | 0 <= i < |mem| :: r[i] == if from <= i < to then ERASED else mem[i]
  {
    seq(|mem|, i requires 0 <= i < |mem| => if from <= i < to then ERASED else mem[i])
  }

  /** The first flash offset of the sector holding an address. */
  function SectorStart(addr: int): int { addr / SECTOR_SIZE * SECTOR_SIZE - FLASH_BASE }

  /** A control write that starts an erase now. */
  predicate Starts(d: Device, addr: int, n: nat, w: Word) {
    addr == CR && n == 4 && !d.Cr().lock && View(w).strt && d.busy == 0
  }

  predicate FlashProgrammable(d: Device) { d.Cr().pg && !d.Cr().lock && d.busy == 0 }

  predicate OptionProgrammable(d: Device) { d.Cr().optpg && d.Cr().optwre && !d.Cr().lock && d.busy == 0 }

  function CrAfter(d: Device, addr: int, n: nat, w: Word): Word {
    if n != 4 then d.cr
    else if addr == KEYR then
      if d.keys == 1 && w == KEY2 then Change(d.cr, Word(0x80, 0, 0, 0), ZERO_WORD) else d.cr
    else if addr == OPTKEYR then
      if d.optKeys == 1 && w == KEY2 && !d.Cr().lock then Change(d.cr, ZERO_WORD, Word(0, 0x02, 0, 0)) else d.cr
    else if addr == CR && !d.Cr().lock then
      var stored := if d.Cr().optwre then w else Change(w, Word(0, 0x02, 0, 0), ZERO_WORD);
      if d.selfClears then Change(stored, STRT, ZERO_WORD) else stored
    else d.cr
  }

  function ArAfter(d: Device, addr: int, n: nat, w: Word): u32 {
    if addr == AR && n == 4 then FromWord(w) else d.ar
  }

  function FlashAfter(d: Device, addr: int, n: nat, w: Word): seq<byte>
    requires d.Shaped() && IsWidth(n)
  {
    if InFlash(addr, n) then
      if FlashProgrammable(d) then NorPatch(d.flash, addr - FLASH_BASE, LowBytes(w, n)) else d.flash
    else if Starts(d, addr, n, w) then
      if View(w).mer || View(w).ber then Erase(d.flash, 0, FLASH_SIZE)
      else if View(w).ser then Erase(d.flash, SectorStart(d.ar), SectorStart(d.ar) + SECTOR_SIZE)
      else d.flash
    else d.flash
  }

  function OptionAfter(d: Device, addr: int, n: nat, w: Word): seq<byte>
    requires d.Shaped() && IsWidth(n)
  {
    if InOption(addr, n) then
      if OptionProgrammable(d) then NorPatch(d.option, addr - OPTION_BASE, LowBytes(w, n)) else d.option
    else if Starts(d, addr, n, w) && View(w).opter && d.Cr().optwre then Erase(d.option, 0, OPTION_SIZE)
    else d.option
  }

  /** A write the controller refuses: data outside a programming mode, or anything while busy. */
  predicate Refused(d: Device, addr: int, n: nat, w: Word) {
    || (InFlash(addr, n) && !FlashProgrammable(d))
    || (InOption(addr, n) && !OptionProgrammable(d))
    || (addr == CR && n == 4 && View(w).strt && !Starts(d, addr, n, w))
  }

  predicate Begins(d: Device, addr: int, n: nat, w: Word) {
    !Refused(d, addr, n, w) && (InFlash(addr, n) || InOption(addr, n) || Starts(d, addr, n, w))
  }

  /** What a sound controller does with a bus write. An operation it begins takes effect
      at once and then keeps the status register busy for `delay` status reads. */
  function IdealWrite(d: Device, addr: int, n: nat, w: Word, delay: nat): Device
    requires d.Shaped() && IsWidth(n)
  {
    var toStatus := addr == SR && n == 4;
    d.(cr := CrAfter(d, addr, n, w),
       ar := ArAfter(d, addr, n, w),
       flash := FlashAfter(d, addr, n, w),
       option := OptionAfter(d, addr, n, w),
       keys := if addr == KEYR && n == 4 && d.keys == 0 && w == KEY1 then 1 else if addr == KEYR then 0 else d.keys,
       optKeys := if addr == OPTKEYR && n == 4 && d.optKeys == 0 && w == KEY1 then 1 else if addr == OPTKEYR then 0 else d.optKeys,
       pgErr := (d.pgErr && !(toStatus && w.b0 & 0x04 != 0)) || Refused(d, addr, n, w),
       wrpErr := d.wrpErr && !(toStatus && w.b0 & 0x10 != 0),
       eop := (d.eop && !(toStatus && w.b0 & 0x20 != 0)) || Begins(d, addr, n, w),
       busy := if Begins(d, addr, n, w) then delay else d.busy)
  }

  // ---- a controller that may misbehave, within bounds ------------------------------------------

  /** The flash offsets a write can reach. */
  predicate TouchesFlash(d: Device, addr: int, n: nat, w: Word, i: int) {
    || (InFlash(addr, n) && addr - FLASH_BASE <= i < addr - FLASH_BASE + n)
    || (addr == CR && n == 4 && !d.Cr().lock && View(w).strt
        && (View(w).mer || View(w).ber || (View(w).ser && SectorStart(d.ar) <= i < SectorStart(d.ar) + SECTOR_SIZE)))
  }

  predicate TouchesOption(d: Device, addr: int, n: nat, w: Word, i: int) {
    || (InOption(addr, n) && addr - OPTION_BASE <= i < addr - OPTION_BASE + n)
    || (addr == CR && n == 4 && !d.Cr().lock && View(w).strt && View(w).opter && d.Cr().optwre)
  }

  predicate SameButLocks(a: Control, b: Control) {
    a.(lock := false, optwre := false) == b.(lock := false, optwre := false)
  }

  /** All that is promised of a worn or faulty controller: registers written by the driver
      hold what was written, key writes move at most the two lock bits, and memory changes
      only where the write was aimed. Cell contents there, status flags and timing are free. */
  ghost predicate Contained(d: Device, addr: int, n: nat, w: Word, d': Device)
    requires d.Shaped()
  {
    && d'.Shaped() && d'.id == d.id && d'.selfClears == d.selfClears
    && d'.ar == ArAfter(d, addr, n, w)
    && (if addr == KEYR || addr == OPTKEYR then SameButLocks(d.Cr(), d'.Cr()) else d'.cr == CrAfter(d, addr, n, w))
    && (forall i | 0 <= i < FLASH_SIZE && !TouchesFlash(d, addr, n, w, i) :: d'.flash[i] == d.flash[i])
    && (forall i | 0 <= i < OPTION_SIZE && !TouchesOption(d, addr, n, w, i) :: d'.option[i] == d.option[i])
  }

  /** How one bus access turns out: chosen by the environment, one per access. */
  datatype Fate = Fate(
    busError: bool,              // the debug module reports a bus error and nothing happens
    sbDelay: nat,                // reads of the bus status until the access is done
    hartReady: bool,             // a pending halt or resume request is carried out by now
    sound: bool,                 // the controller behaves ideally on this access
    delay: nat,                  // status reads until an operation begun now is done
    keyTaken: bool,              // an unsound controller accepts an unlock key
    pgErr: bool, wrpErr: bool,   // an unsound controller's error flags
    cells: int -> byte)          // what an unsound controller leaves in the cells it reached

  function RogueWrite(d: Device, addr: int, n: nat, w: Word, f: Fate): Device
    requires d.Shaped() && IsWidth(n)
  {
    d.(cr := if (addr == KEYR || addr == OPTKEYR) && !f.keyTaken then d.cr else CrAfter(d, addr, n, w),
       ar := ArAfter(d, addr, n, w),
       flash := seq(|d.flash|, i requires 0 <= i < |d.flash| => if TouchesFlash(d, addr, n, w, i) then f.cells(i) else d.flash[i]),
       option := seq(|d.option|, i requires 0 <= i < |d.option| => if TouchesOption(d, addr, n, w, i) then f.cells(i) else d.option[i]),
       pgErr := f.pgErr, wrpErr := f.wrpErr, eop := true, busy := f.delay)
  }

  function ActualWrite(d: Device, addr: int, n: nat, w: Word, f: Fate): Device
    requires d.Shaped() && IsWidth(n)
  {
    if f.sound then IdealWrite(d, addr, n, w, f.delay) else RogueWrite(d, addr, n, w, f)
  }

  ghost predicate SoundBus(fates: nat -> Fate) { forall t :: fates(t).sound }

  /** The outcomes of a bus write: contained always, ideal when the controller is sound. */
  ghost predicate Written(d: Device, addr: int, n: nat, w: Word, d': Device, fates: nat -> Fate) {
    && d.Shaped() && IsWidth(n)
    && Contained(d, addr, n, w, d')
    && (SoundBus(fates) ==> exists t: nat :: d' == IdealWrite(d, addr, n, w, fates(t).delay))
  }

  lemma ActualIsWritten(d: Device, addr: int, n: nat, w: Word, fates: nat -> Fate, t: nat)
    requires d.Shaped() && IsWidth(n)
    ensures Written(d, addr, n, w, ActualWrite(d, addr, n, w, fates(t)), fates)
  {
    hide IdealWrite, Contained, RogueWrite;
    var f := fates(t);
    if f.sound {
      IdealIsContained(d, addr, n, w, f.delay);
    } else {
      RogueIsContained(d, addr, n, w, f);
    }
  }

  lemma RogueIsContained(d: Device, addr: int, n: nat, w: Word, f: Fate)
    requires d.Shaped() && IsWidth(n)
    ensures Contained(d, addr, n, w, RogueWrite(d, addr, n, w, f))
  {
    hide CrAfter, ArAfter, TouchesFlash, TouchesOption, View;
    if addr == KEYR || addr == OPTKEYR {
      KeysMoveLocksOnly(d, addr, n, w);
    }
  }

  lemma KeysMoveLocksOnly(d: Device, addr: int, n: nat, w: Word)
    requires addr == KEYR || addr == OPTKEYR
    ensures SameButLocks(d.Cr(), View(CrAfter(d, addr, n, w)))
  {
    hide ToBits, Change, View, Merge;
    LockMasks();
    ViewChange(d.cr, Word(0x80, 0, 0, 0), ZERO_WORD);
    ViewChange(d.cr, ZERO_WORD, Word(0, 0x02, 0, 0));
    LocksMerge(d.Cr());
  }

  lemma LocksMerge(c: Control)
    ensures SameButLocks(c, Merge(c, View(Word(0x80, 0, 0, 0)), View(ZERO_WORD)))
    ensures SameButLocks(c, Merge(c, View(ZERO_WORD), View(Word(0, 0x02, 0, 0))))
  {
    hide View;
    LockMasks();
  }

  lemma MemoryStays(d: Device, addr: int, n: nat, w: Word)
    requires d.Shaped() && IsWidth(n)
    ensures forall i | 0 <= i < FLASH_SIZE && !TouchesFlash(d, addr, n, w, i) :: FlashAfter(d, addr, n, w)[i] == d.flash[i]
    ensures forall i | 0 <= i < OPTION_SIZE && !TouchesOption(d, addr, n, w, i) :: OptionAfter(d, addr, n, w)[i] == d.option[i]
    ensures |FlashAfter(d, addr, n, w)| == FLASH_SIZE && |OptionAfter(d, addr, n, w)| == OPTION_SIZE
  {
    hide ToBits, View, Nor, LowBytes, SectorStart;
  }

  lemma IdealIsContained(d: Device, addr: int, n: nat, w: Word, delay: nat)
    requires d.Shaped() && IsWidth(n)
    ensures Contained(d, addr, n, w, IdealWrite(d, addr, n, w, delay))
  {
    hide CrAfter, ArAfter, FlashAfter, OptionAfter, TouchesFlash, TouchesOption, Refused, Begins, SameButLocks, View;
    if addr == KEYR || addr == OPTKEYR {
      KeysMoveLocksOnly(d, addr, n, w);
    }
    MemoryStays(d, addr, n, w);
  }

  /** A system reset: the controller locks itself and forgets its state; memory keeps. */
  function ResetRegisters(d: Device): Device {
    d.(cr := Word(0x80, 0, 0, 0), ar := 0, pgErr := false, wrpErr := false, eop := false,
       busy := 0, keys := 0, optKeys := 0)
  }

  lemma LockMasks()
    ensures View(ZERO_WORD) == Control(false, false, false, false, false, false, false, false, false)
    ensures View(Word(0x80, 0, 0, 0)) == Control(false, false, false, false, false, false, false, true, false)
    ensures View(Word(0, 0x02, 0, 0)) == Control(false, false, false, false, false, false, false, false, true)
  {}

  // ---- bus reads -----------------------------------------------------------------------------------

  function StatusWord(d: Device): Word {
    Word((if d.busy > 0 then 0x01 else 0) | (if d.pgErr then 0x04 else 0)
         | (if d.wrpErr then 0x10 else 0) | (if d.eop then 0x20 else 0), 0, 0, 0)
  }

  function ReadBus(d: Device, addr: int, n: nat): Word
    requires d.Shaped() && IsWidth(n)
  {
    if InFlash(addr, n) then FromLow(d.flash[addr - FLASH_BASE..addr - FLASH_BASE + n])
    else if InOption(addr, n) then FromLow(d.option[addr - OPTION_BASE..addr - OPTION_BASE + n])
    else if addr == SR then StatusWord(d)
    else if addr == CR then d.cr
    else if addr == AR then ToWord(d.ar)
    else if addr == DEVICE_ID_ADDRESS then d.id
    else ZERO_WORD
  }

  function FromLow(s: seq<byte>): Word
    requires IsWidth(|s|)
  {
    if |s| == 2 then Word(s[0], s[1], 0, 0) else Word(s[0], s[1], s[2], s[3])
  }

  /** Reading the status register lets one unit of the running operation pass. */
  function AfterRead(d: Device, addr: int): Device {
    if addr == SR && d.busy > 0 then d.(busy := d.busy - 1) else d
  }
}
