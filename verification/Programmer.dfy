/** The batch programmer: flash controller driver, record programming and verification,
    and the decision whether the shared pins may be given back. */
module Programmer {
  import opened Errors
  import opened Bytes
  import opened BatchFormat
  import opened FlashDevice
  import opened FlashSteps
  import opened NorMemory
  import opened DebugModule
  import opened SystemBus
  import opened McuDebug
  import opened SpiOwnership

  /** One attempted write on the target's bus, with the two safety flags at that moment. */
  datatype Access = Access(addr: int, n: nat, value: Word, blocked: bool, started: bool) {
    /** A start of an erase, or flash or option data. */
    predicate Destructive() {
      (addr == CR && n == 4 && View(value).strt) || InFlash(addr, n) || InOption(addr, n)
    }
  }

  ghost predicate AllBlocked(log: seq<Access>) {
    forall i | 0 <= i < |log| :: log[i].Destructive() ==> log[i].blocked
  }

  ghost predicate AllStarted(log: seq<Access>) {
    forall i | 0 <= i < |log| :: log[i].Destructive() ==> log[i].started
  }

  lemma OneMore(log: seq<Access>, a: Access)
    ensures AllBlocked(log + [a]) <==> AllBlocked(log) && (a.Destructive() ==> a.blocked)
    ensures AllStarted(log + [a]) <==> AllStarted(log) && (a.Destructive() ==> a.started)
  {
    hide Access.Destructive;
    var all := log + [a];
    assert all[|log|] == a && forall i | 0 <= i < |log| :: all[i] == log[i];
  }

  /** Every wait outlasts every operation. */
  ghost predicate Patient(deadlines: nat -> nat, fates: nat -> Fate) {
    forall s: nat, t: nat :: fates(t).delay < deadlines(s)
  }

  predicate Unlocked(d: Device) { !d.Cr().lock && d.Cr().optwre && d.busy == 0 }

  /** Idle, and no key of an unlock sequence has arrived. */
  predicate Rested(d: Device) { d.busy == 0 && d.keys == 0 && d.optKeys == 0 }

  /** As a system reset leaves the controller, error flags aside. */
  predicate Resettled(d: Device) { Rested(d) && !d.Cr().strt }

  /** The controller is unlocked for flash and option bytes, idle and without error flags. */
  predicate Usable(d: Device) { Unlocked(d) && !d.pgErr && !d.wrpErr }

  /** The driver's test of a status word. */
  predicate SrBusy(status: Word) { ToBits(status.b0).x0 }

  predicate SrError(status: Word) { ToBits(status.b0).x2 || ToBits(status.b0).x4 }

  lemma StatusWordBits(d: Device)
    ensures SrBusy(StatusWord(d)) <==> d.busy > 0
    ensures SrError(StatusWord(d)) <==> d.pgErr || d.wrpErr
  {}

  lemma ReadRegisters(d: Device)
    requires d.Shaped()
    ensures ReadBus(d, SR, 4) == StatusWord(d) && ReadBus(d, CR, 4) == d.cr && ReadBus(d, DEVICE_ID_ADDRESS, 4) == d.id
    ensures AfterRead(d, CR) == d && AfterRead(d, DEVICE_ID_ADDRESS) == d
    ensures AfterRead(d, SR) == d.(busy := AfterRead(d, SR).busy)
    ensures AfterRead(d, SR).busy == (if d.busy > 0 then d.busy - 1 else 0)
    ensures Mapped(SR, 4) && Mapped(CR, 4) && Mapped(AR, 4) && Mapped(KEYR, 4) && Mapped(OPTKEYR, 4) && Mapped(DEVICE_ID_ADDRESS, 4)
  {
    hide StatusWord, ToWord;
  }

  class Programmer {
    const dbg: Link
    const spi: SpiOwner

    // the report
    var destructiveStarted: bool
    var programmedBytes: nat
    var verifiedBytes: nat
    var address: int
    var mcuResumed: bool
    var cleanupError: Error

    // how many status polls each wait affords before its deadline
    var deadlines: nat -> nat
    var waits: nat

    ghost var log: seq<Access>    // bus writes attempted in this run
    ghost var entry: Device       // the target when this run started
    ghost var base: Dap           // the link when the flash work began
    ghost var dirty: bool         // something destructive since the last complete update

    constructor (dbg: Link, spi: SpiOwner)
      ensures this.dbg == dbg && this.spi == spi
    {
      this.dbg := dbg;
      this.spi := spi;
      deadlines := _ => 0;
      cleanupError := NoError;
      log := [];
      dirty := false;
      entry := dbg.dap.dm.dev;
      base := dbg.dap;
    }

    function Dev(): Device
      reads dbg
    {
      dbg.dap.dm.dev
    }

    /** The hart, the wire and the chip's identity are as when the flash work began. */
    ghost predicate Kept()
      reads this`base, dbg
    {
      HartUntouched(base.dm, dbg.dap.dm) && SameWire(base, dbg.dap) && Dev().id == base.dm.dev.id
      && Dev().Shaped() && dbg.sessionActive && dbg.apTar != 4 * DMCONTROL
    }

    /** Nothing has failed on the link since the session began. */
    ghost predicate Steady()
      reads this`base, dbg
    {
      dbg.Coherent() && Kept()
    }

    /** Something may have failed, but the core can still be resumed safely. */
    ghost predicate Calm()
      reads this`base, dbg
    {
      dbg.Valid() && CoreOf(dbg.dap).Stationary() && Kept()
    }

    /** The pins stay blocked while the target may be half written, and nothing destructive
        was ever sent with the block down. */
    ghost predicate Safe()
      reads this`log, this`dirty, dbg, spi
    {
      AllBlocked(log) && (Dev().Cr().strt ==> spi.restoreBlocked) && (dirty ==> spi.restoreBlocked)
    }

    /** Something destructive was sent with the block down. */
    ghost predicate Exposed()
      reads this`log
    {
      !AllBlocked(log)
    }

    /** A start bit stands with the block down. */
    ghost predicate Unguarded()
      reads dbg, spi
    {
      Dev().Cr().strt && !spi.restoreBlocked
    }

    /** A write sent now. */
    ghost function Sent(addr: int, n: nat, value: Word): Access
      reads this`destructiveStarted, spi
    {
      Access(addr, n, value, spi.restoreBlocked, destructiveStarted)
    }

    /** Nothing destructive is sent, and no cell moves, before the report says so. */
    ghost predicate Strict()
      reads this`log, this`entry, this`destructiveStarted, dbg
    {
      && AllStarted(log) && (Dev().Cr().strt ==> destructiveStarted)
      && (!destructiveStarted ==> SameCells(entry, Dev()))
    }

    /** The same with error flags possibly left from before, and no start bit standing. */
    ghost predicate Erasable()
      reads this`deadlines, this`base, dbg
    {
      dbg.Prompt() && SoundBus(base.dm.fates) && Patient(deadlines, base.dm.fates) && Unlocked(Dev()) && !Dev().Cr().strt
    }

    /** An undisturbed link, a sound controller, patient waits and a usable register state. */
    ghost predicate Fine()
      reads this`deadlines, this`base, dbg
    {
      dbg.Prompt() && SoundBus(base.dm.fates) && Patient(deadlines, base.dm.fates) && Usable(Dev())
    }

    /** Block and report were either both raised, or neither was touched in a failed step. */
    ghost predicate Marked(blocked: bool, started: bool, err: Error)
      reads this`destructiveStarted, spi
    {
      || (spi.restoreBlocked == blocked && destructiveStarted == started && err != NoError)
      || (spi.restoreBlocked && destructiveStarted)
    }

    // ---- flash controller driver ------------------------------------------------------------

    method Get(addr: u32) returns (err: Error, value: Word)
      requires Steady()
      modifies dbg
      ensures Calm() && (err == NoError ==> Steady())
      ensures Dev() == old(Dev()) || Dev() == AfterRead(old(Dev()), addr)
      ensures err == NoError ==> Dev() == AfterRead(old(Dev()), addr) && value == ReadBus(old(Dev()), addr, 4)
      ensures old(dbg.Prompt()) && addr % 4 == 0 && Mapped(addr, 4) ==> err == NoError && dbg.Prompt()
    {
      hide ReadBus, Mapped, Link.Prompt, View;
      err, value := dbg.ReadMemory(addr, 4);
    }

    method Put(addr: u32, n: nat, value: Word) returns (err: Error)
      requires Steady() && IsWidth(n)
      modifies dbg, this`log, this`dirty
      ensures Calm() && (err == NoError ==> Steady())
      ensures Dev() == old(Dev()) || Written(old(Dev()), addr, n, value, Dev(), base.dm.fates)
      ensures err == NoError ==> Written(old(Dev()), addr, n, value, Dev(), base.dm.fates)
      ensures old(dbg.Prompt()) && addr % n == 0 && Mapped(addr, n) ==> err == NoError && dbg.Prompt()
      ensures log == old(log) + [Sent(addr, n, value)]
      ensures dirty == (old(dirty) || Sent(addr, n, value).Destructive())
      ensures AllBlocked(log) <==> old(AllBlocked(log)) && (Sent(addr, n, value).Destructive() ==> spi.restoreBlocked)
      ensures AllStarted(log) <==> old(AllStarted(log)) && (Sent(addr, n, value).Destructive() ==> destructiveStarted)
    {
      hide Written, Mapped, View, Link.Prompt, AllBlocked, AllStarted, Access.Destructive;
      ghost var d, a := Dev(), Sent(addr, n, value);
      OneMore(log, a);
      log := log + [a];
      dirty := dirty || a.Destructive();
      err := dbg.WriteMemory(addr, n, value);
      if Written(d, addr, n, value, Dev(), base.dm.fates) {
        WrittenKeeps(d, addr, n, value, Dev(), base.dm.fates);
      }
    }

    method WaitReady() returns (err: Error)
      requires Steady()
      modifies dbg, this`waits
      ensures Calm() && (err == NoError ==> Steady())
      ensures Dev() == old(Dev()).(busy := Dev().busy)
      ensures err == NoError ==> Dev().busy == 0 && !Dev().pgErr && !Dev().wrpErr
      ensures old(dbg.Prompt() && !Dev().pgErr && !Dev().wrpErr && Outlasted(Dev().busy)) ==>
        err == NoError && dbg.Prompt()
    {
      hide ReadBus, AfterRead, StatusWord, SrBusy, SrError, Mapped, View, Link.Prompt, Link.Coherent, Link.Valid, CoreOf, Kept;
      var left := deadlines(waits);
      waits := waits + 1;
      while left > 0
        invariant Steady()
        invariant Dev() == old(Dev()).(busy := Dev().busy)
        invariant old(dbg.Prompt() && !Dev().pgErr && !Dev().wrpErr && Outlasted(Dev().busy)) ==>
          dbg.Prompt() && Dev().busy < left
        decreases left
      {
        ghost var d := Dev();
        SteadyShape();
        ReadRegisters(d);
        StatusWordBits(d);
        var status;
        err, status := Get(SR);
        if err != NoError {
          return;
        }
        if !SrBusy(status) {
          if SrError(status) {
            err := InvalidResponse;
          }
          SteadyIsCalm();
          return;
        }
        left := left - 1;
      }
      err := Timeout;
      SteadyIsCalm();
    }

    ghost predicate Outlasted(busy: nat)
      reads this`deadlines
    {
      forall s: nat :: busy < deadlines(s)
    }

    lemma SteadyShape()
      requires Steady()
      ensures Dev().Shaped() && Dev().id == base.dm.dev.id
    {
      hide Link.Coherent, HartUntouched, SameWire;
    }

    lemma SteadyIsCalm()
      requires Steady()
      ensures Calm()
    {
      hide Kept;
    }

    method SetControlBits(clear: Word, set_: Word) returns (err: Error)
      requires Steady()
      modifies dbg, this`log, this`dirty
      ensures Calm() && (err == NoError ==> Steady())
      ensures Dev() == old(Dev()) || Written(old(Dev()), CR, 4, Change(old(Dev()).cr, clear, set_), Dev(), base.dm.fates)
      ensures err == NoError ==> Written(old(Dev()), CR, 4, Change(old(Dev()).cr, clear, set_), Dev(), base.dm.fates)
      ensures old(dbg.Prompt()) ==> err == NoError && dbg.Prompt()
      ensures log == old(log) || log == old(log) + [Sent(CR, 4, Change(old(Dev()).cr, clear, set_))]
      ensures err == NoError ==> log == old(log) + [Sent(CR, 4, Change(old(Dev()).cr, clear, set_))]
      ensures err == NoError ==>
        (Exposed() <==> old(Exposed()) || (Asked(old(Dev()), clear, set_).strt && !spi.restoreBlocked))
      ensures old(Exposed()) ==> Exposed()
      ensures old(Safe()) && (View(set_).strt ==> spi.restoreBlocked) ==> Safe()
      ensures old(Strict()) && (View(set_).strt ==> destructiveStarted) ==> Strict()
    {
      hide ReadBus, AfterRead, Mapped, Written, View, Change, Link.Prompt, Steady, Calm, InFlash, InOption, AllBlocked, AllStarted;
      ghost var d := Dev();
      SteadyShape();
      ReadRegisters(d);
      NotMemory();
      var control;
      err, control := Get(CR);
      if err == NoError {
        ViewChange(d.cr, clear, set_);
        err := Put(CR, 4, Change(control, clear, set_));
        if Dev() != d {
          ControlBitsAfter(d, clear, set_, Dev(), base.dm.fates);
          ControlCells(d, clear, set_, Dev(), base.dm.fates);
        }
      }
    }

    method ClearStatus() returns (err: Error)
      requires Steady()
      modifies dbg, this`log, this`dirty
      ensures Calm() && (err == NoError ==> Steady())
      ensures SameCells(old(Dev()), Dev()) && Dev().cr == old(Dev()).cr && Dev().ar == old(Dev()).ar
      ensures err == NoError && SoundBus(base.dm.fates) ==> !Dev().pgErr && !Dev().wrpErr && Dev().busy == old(Dev()).busy
      ensures old(dbg.Prompt()) ==> err == NoError && dbg.Prompt()
      ensures Exposed() == old(Exposed())
      ensures old(Safe()) ==> Safe()
      ensures old(Strict()) ==> Strict()
    {
      hide Mapped, Written, View, Link.Prompt, Steady, Calm, InFlash, InOption;
      ghost var d := Dev();
      SteadyShape();
      ReadRegisters(d);
      NotMemory();
      err := Put(SR, 4, CLEAR_STATUS);
      if Dev() != d || err == NoError {
        StatusCleared(d, Dev(), base.dm.fates);
      }
    }

    /** Sends both keys of one lock. */
    method PutKeys(addr: u32) returns (err: Error)
      requires Steady() && (addr == KEYR || addr == OPTKEYR)
      modifies dbg, this`log, this`dirty
      ensures Calm() && (err == NoError ==> Steady())
      ensures SameCells(old(Dev()), Dev()) && SameButLocks(old(Dev()).Cr(), Dev().Cr())
      ensures old(Exposed()) ==> Exposed()
      ensures old(Safe()) ==> Safe()
      ensures old(Strict()) ==> Strict()
      ensures old(dbg.Prompt()) ==> err == NoError && dbg.Prompt()
      ensures err == NoError && SoundBus(base.dm.fates) ==> SameStatus(old(Dev()), Dev())
      ensures err == NoError && SoundBus(base.dm.fates) && addr == KEYR && old(Dev()).keys == 0 ==>
        Dev().Cr() == old(Dev()).Cr().(lock := false) && Dev().optKeys == old(Dev()).optKeys
      ensures err == NoError && SoundBus(base.dm.fates) && addr == OPTKEYR && old(Dev()).optKeys == 0 && !old(Dev()).Cr().lock ==>
        Dev().Cr() == old(Dev()).Cr().(optwre := true)
    {
      hide Mapped, Written, View, Link.Prompt, Steady, Calm, InFlash, InOption, CrAfter, Safe, Strict;
      ghost var d0 := Dev();
      err := PutKey(addr, KEY1);
      if err != NoError { return; }
      ghost var d := Dev();
      KeysWait(d0, addr);
      err := PutKey(addr, KEY2);
      KeysOpen(d);
    }

    method ReadControl() returns (err: Error, control: Control)
      requires Steady()
      modifies dbg
      ensures Calm() && (err == NoError ==> Steady())
      ensures Dev() == old(Dev())
      ensures err == NoError ==> control == Dev().Cr()
      ensures old(Safe()) ==> Safe()
      ensures old(Strict()) ==> Strict()
      ensures old(dbg.Prompt()) ==> err == NoError && dbg.Prompt()
    {
      hide Mapped, View, Link.Prompt, Steady, Calm, ReadBus, AfterRead, AllBlocked, AllStarted;
      SteadyShape();
      ReadRegisters(Dev());
      var w;
      err, w := Get(CR);
      control := View(w);
    }

    method UnlockController() returns (err: Error)
      requires Steady()
      modifies dbg, this`log, this`dirty
      ensures Calm() && (err == NoError ==> Steady())
      ensures SameCells(old(Dev()), Dev()) && SameButLocks(old(Dev()).Cr(), Dev().Cr())
      ensures err == NoError ==> !Dev().Cr().lock
      ensures old(Exposed()) ==> Exposed()
      ensures old(Safe()) ==> Safe()
      ensures old(Strict()) ==> Strict()
      ensures old(dbg.Prompt()) ==> dbg.Prompt()
      ensures old(dbg.Prompt() && Rested(Dev())) && SoundBus(base.dm.fates) ==>
        err == NoError && dbg.Prompt() && Dev().busy == 0 && Dev().optKeys == 0
    {
      hide Mapped, Written, View, Link.Prompt, Steady, Calm, Safe, Strict;
      SteadyIsCalm();
      var control;
      err, control := ReadControl();
      if err == NoError && control.lock {
        err := PutKeys(KEYR);
        if err == NoError {
          SteadyIsCalm();
          err, control := ReadControl();
          if err == NoError && control.lock {
            err := InvalidState;
          }
        }
      }
    }

    /** Unlocks the controller, then the option bytes. */
    method Unlock() returns (err: Error)
      requires Steady()
      modifies dbg, this`log, this`dirty
      ensures Calm() && (err == NoError ==> Steady())
      ensures SameCells(old(Dev()), Dev()) && SameButLocks(old(Dev()).Cr(), Dev().Cr())
      ensures err == NoError ==> Dev().Cr().optwre
      ensures old(Exposed()) ==> Exposed()
      ensures old(Safe()) ==> Safe()
      ensures old(Strict()) ==> Strict()
      ensures old(dbg.Prompt()) ==> dbg.Prompt()
      ensures old(dbg.Prompt() && Rested(Dev())) && SoundBus(base.dm.fates) ==>
        err == NoError && dbg.Prompt() && Unlocked(Dev())
    {
      hide Mapped, Written, View, Link.Prompt, Steady, Calm, Safe, Strict, SameButLocks, SameCells;
      ghost var d := Dev();
      err := UnlockController();
      if err == NoError {
        ghost var d1 := Dev();
        err := PutKeys(OPTKEYR);
        LocksTrans(d, d1, Dev());
        if err == NoError {
          SteadyIsCalm();
          var control;
          err, control := ReadControl();
          if err == NoError && !control.optwre {
            err := InvalidState;
          }
        }
      }
    }

    method PutAddress(at: u32) returns (err: Error)
      requires Steady()
      modifies dbg, this`log, this`dirty
      ensures Calm() && (err == NoError ==> Steady())
      ensures SameCells(old(Dev()), Dev()) && Dev().cr == old(Dev()).cr
      ensures err == NoError ==> Dev().ar == at && (SoundBus(base.dm.fates) ==> SameStatus(old(Dev()), Dev()))
      ensures Exposed() == old(Exposed())
      ensures old(Safe()) ==> Safe()
      ensures old(Strict()) ==> Strict()
      ensures old(dbg.Prompt()) ==> err == NoError && dbg.Prompt()
    {
      hide Mapped, Written, View, Link.Prompt, Steady, Calm, InFlash, InOption, ToWord;
      ghost var d := Dev();
      SteadyShape();
      ReadRegisters(d);
      NotMemory();
      err := Put(AR, 4, ToWord(at));
      if Dev() != d || err == NoError {
        AddressSet(d, at, Dev(), base.dm.fates);
      }
    }

    method PutKey(addr: u32, key: Word) returns (err: Error)
      requires Steady() && (addr == KEYR || addr == OPTKEYR)
      modifies dbg, this`log, this`dirty
      ensures Calm() && (err == NoError ==> Steady())
      ensures SameCells(old(Dev()), Dev()) && Dev().ar == old(Dev()).ar
      ensures SameButLocks(old(Dev()).Cr(), Dev().Cr())
      ensures old(Exposed()) ==> Exposed()
      ensures old(Safe()) ==> Safe()
      ensures old(Strict()) ==> Strict()
      ensures old(dbg.Prompt()) ==> err == NoError && dbg.Prompt()
      ensures err == NoError && SoundBus(base.dm.fates) ==>
        SameStatus(old(Dev()), Dev()) && Dev().cr == CrAfter(old(Dev()), addr, 4, key)
      ensures err == NoError && SoundBus(base.dm.fates) && addr == KEYR ==>
        Dev().optKeys == old(Dev()).optKeys && Dev().keys == (if old(Dev()).keys == 0 && key == KEY1 then 1 else 0)
      ensures err == NoError && SoundBus(base.dm.fates) && addr == OPTKEYR ==>
        Dev().keys == old(Dev()).keys && Dev().optKeys == (if old(Dev()).optKeys == 0 && key == KEY1 then 1 else 0)
    {
      hide Mapped, Written, View, Link.Prompt, Steady, Calm, InFlash, InOption, CrAfter;
      ghost var d := Dev();
      SteadyShape();
      ReadRegisters(d);
      NotMemory();
      err := Put(addr, 4, key);
      if Dev() != d || err == NoError {
        KeyWritten(d, addr, key, Dev(), base.dm.fates);
      }
    }

    /** Everything an erase needs before its start bit. */
    method PrepareErase(mode: Word, at: u32) returns (err: Error)
      requires Steady() && (mode == SER || mode == OPTER)
      modifies dbg, this`log, this`dirty
      ensures Calm() && (err == NoError ==> Steady())
      ensures old(Exposed()) ==> Exposed()
      ensures old(Safe()) ==> Safe()
      ensures old(Strict()) ==> Strict()
      ensures KeptByErase(old(Dev()), Dev(), mode, at)
      ensures err == NoError ==> (Exposed() <==> old(Exposed() || Unguarded()))
      ensures old(dbg.Prompt()) ==> err == NoError && dbg.Prompt()
      ensures err == NoError && mode == SER ==> Dev().ar == at
      ensures err == NoError && !Dev().Cr().lock ==>
        Dev().Cr() == EraseMode(mode).(strt := Dev().Cr().strt, optwre := Dev().Cr().optwre)
      ensures old(Erasable()) ==>
        err == NoError && Erasable() && Fine() && SameCells(old(Dev()), Dev()) && Dev().Cr() == EraseMode(mode)
      ensures old(dbg.Prompt() && Unlocked(Dev()) && Dev().Cr().strt) && SoundBus(base.dm.fates) ==>
        err == NoError && ErasedExactly(old(Dev()), Dev(), mode, at)
    {
      hide Mapped, Written, View, Link.Prompt, Steady, Calm, Change, Merge, SectorStart, Safe, Strict, Patient, Exposed, Erase,
        Kept, Link.Valid, Link.Coherent, CoreOf, KeptByErase, ErasedExactly;
      ghost var d := Dev();
      err := ClearStatus();
      QuietStart(d, Dev(), mode, at);
      if err != NoError { return; }
      if mode == SER {
        err := PutAddress(at);
        QuietStart(d, Dev(), mode, at);
        if err != NoError { return; }
      }
      ghost var d1 := Dev();
      err := SetControlBits(ERASE_AND_MODES, mode);
      AfterQuiet(d, d1, Dev(), mode, at);
      ModesQuiet(mode);
      EraseModeAsked(d1, mode);
      if Dev() != d1 || err == NoError {
        EraseModeSet(d1, mode, Dev(), base.dm.fates);
      }
    }

    /** Raises the block, marks the report, and only then sends the start bit. */
    method StartErase(mode: Word) returns (err: Error)
      requires Steady() && (mode == SER || mode == OPTER)
      requires !Dev().Cr().lock ==> Dev().Cr() == EraseMode(mode).(strt := Dev().Cr().strt, optwre := Dev().Cr().optwre)
      modifies dbg, spi`restoreBlocked, this`log, this`dirty, this`destructiveStarted, this`waits
      ensures Calm() && (err == NoError ==> Steady())
      ensures spi.restoreBlocked && destructiveStarted
      ensures old(Exposed()) ==> Exposed()
      ensures old(Safe()) ==> Safe()
      ensures old(Strict()) ==> Strict()
      ensures KeptByErase(old(Dev()), Dev(), mode, old(Dev()).ar)
      ensures old(Fine() && Dev().Cr() == EraseMode(mode)) ==>
        && err == NoError && Fine() && Dev().Cr() == EraseMode(mode).(strt := Dev().Cr().strt)
        && ErasedExactly(old(Dev()), Dev(), mode, old(Dev()).ar)
    {
      hide Mapped, Written, View, Link.Prompt, Steady, Calm, Change, Merge, Erase, SectorStart, Patient, Asked, AllBlocked, AllStarted, Kept,
        Link.Valid, Link.Coherent, CoreOf, Exposed;
      spi.BlockSwdRestore();
      destructiveStarted := true;
      ghost var d := Dev();
      err := SetControlBits(ZERO_WORD, STRT);
      if Dev() != d || err == NoError {
        EraseStarted(d, mode, Dev(), base.dm.fates);
      }
      if err != NoError { return; }
      PatientOutlasts(Dev().busy);
      err := WaitReady();
    }

    method FinishErase() returns (err: Error)
      requires Steady()
      modifies dbg, this`log, this`dirty
      ensures Calm() && (err == NoError ==> Steady())
      ensures old(Exposed()) ==> Exposed()
      ensures old(Safe()) ==> Safe()
      ensures old(Strict()) ==> Strict()
      ensures SameCells(old(Dev()), Dev())
      ensures old(Fine()) ==> err == NoError && Fine() && !Dev().Cr().strt
    {
      hide Mapped, Written, View, Link.Prompt, Steady, Calm, Change, Merge, Patient, Asked, Safe, Strict;
      ghost var d := Dev();
      ModesQuiet(SER);
      err := SetControlBits(ERASE_AND_STRT, ZERO_WORD);
      if Dev() != d || err == NoError {
        EraseModeCleared(d, Dev(), base.dm.fates);
      }
    }

    /** Erases the sector at an address, or the option page. */
    method EraseOperation(mode: Word, at: u32) returns (err: Error)
      requires Steady() && (mode == SER || mode == OPTER)
      modifies dbg, spi`restoreBlocked, this`log, this`dirty, this`destructiveStarted, this`waits
      ensures Calm() && (err == NoError ==> Steady())
      ensures old(Unguarded() && !destructiveStarted) && destructiveStarted ==> Exposed()
      ensures old(Exposed()) ==> Exposed()
      ensures old(Safe()) ==> Safe()
      ensures old(Strict()) ==> Strict()
      ensures old(dbg.Prompt()) ==> destructiveStarted
      ensures Marked(old(spi.restoreBlocked), old(destructiveStarted), err)
      ensures KeptByErase(old(Dev()), Dev(), mode, at)
      ensures old(Erasable()) ==>
        err == NoError && Erasable() && Fine() && ErasedExactly(old(Dev()), Dev(), mode, at)
    {
      hide Mapped, Written, View, Link.Prompt, Steady, Calm, Erase, SectorStart, Patient, Safe, Strict, FlashKeptOutside, Exposed;
      ghost var d0 := Dev();
      err := PrepareErase(mode, at);
      ghost var d1 := Dev();
      KeptTrans(d0, d1, d1, mode, at);
      if err != NoError { return; }
      err := StartErase(mode);
      ghost var d2 := Dev();
      KeptTrans(d0, d1, d2, mode, at);
      if err != NoError { return; }
      err := FinishErase();
      KeptTrans(d0, d2, Dev(), mode, at);
    }

    /** Erases every sector a range touches. */
    method EraseRange(at: u32, size: u32) returns (err: Error)
      requires Steady() && FLASH_BASE <= at && at + size <= FLASH_BASE + FLASH_SIZE && size > 0
      modifies dbg, spi`restoreBlocked, this`log, this`dirty, this`destructiveStarted, this`waits, this`address
      ensures Calm() && (err == NoError ==> Steady())
      ensures old(Exposed()) ==> Exposed()
      ensures old(Safe()) ==> Safe()
      ensures old(Strict()) ==> Strict()
      ensures Marked(old(spi.restoreBlocked), old(destructiveStarted), err)
      ensures Dev().option == old(Dev()).option
      ensures FlashKeptOutside(old(Dev()), Dev(), SpanStart(at), SpanEnd(at + size))
      ensures old(Erasable()) ==>
        && err == NoError && Erasable() && Fine()
        && Dev().flash == Erase(old(Dev()).flash, SpanStart(at), SpanEnd(at + size))
    {
      hide Mapped, Written, View, Link.Prompt, Steady, Calm, Erase, Patient, Safe, Strict, Erasable, Fine, FlashKeptOutside, KeptByErase, ErasedExactly,
        Kept, Link.Valid, Link.Coherent, CoreOf, Device.Shaped, SpanStart, SpanEnd;
      SectorSpan(at, size);
      var first := at / SECTOR_SIZE * SECTOR_SIZE;
      var end := (at + size + SECTOR_SIZE - 1) / SECTOR_SIZE * SECTOR_SIZE;
      var current := first;
      ghost var d0 := Dev();
      SteadyIsCalm();
      NothingErased(d0, SpanStart(at));
      err := NoError;
      while err == NoError && current < end
        invariant first <= current <= end && current % SECTOR_SIZE == 0
        invariant Calm() && (err == NoError ==> Steady())
        invariant old(Exposed()) ==> Exposed()
        invariant old(Safe()) ==> Safe()
        invariant old(Strict()) ==> Strict()
        invariant (spi.restoreBlocked == old(spi.restoreBlocked) && destructiveStarted == old(destructiveStarted) && (err != NoError || current == first))
          || (spi.restoreBlocked && destructiveStarted)
        invariant Dev().option == d0.option
        invariant FlashKeptOutside(d0, Dev(), SpanStart(at), if err == NoError then current - FLASH_BASE else SpanEnd(at + size))
        invariant old(Erasable()) ==> err == NoError && Erasable() && (current > first ==> Fine())
        invariant old(Erasable()) ==> Dev().flash == Erase(d0.flash, SpanStart(at), current - FLASH_BASE)
        decreases end - current, err == NoError
      {
        address := current;
        ghost var d := Dev();
        NextSector(current, end);
        err := EraseOperation(SER, current);
        RangeStep(d0, d, Dev(), SpanStart(at), current);
        if err == NoError {
          current := current + SECTOR_SIZE;
        } else {
          WidenKept(d0, Dev(), SpanStart(at), current + SECTOR_SIZE - FLASH_BASE, SpanEnd(at + size));
        }
      }
    }

    /** Programs one flash word and waits for it. */
    method PutFlashWord(at: u32, w: Word) returns (err: Error)
      requires Steady() && InFlash(at, 4)
      modifies dbg, this`log, this`dirty, this`waits
      ensures Calm() && (err == NoError ==> Steady())
      ensures old(Exposed()) ==> Exposed()
      ensures old(Safe()) && spi.restoreBlocked ==> Safe()
      ensures old(Strict()) && destructiveStarted ==> Strict()
      ensures Dev().option == old(Dev()).option && Dev().cr == old(Dev()).cr
      ensures FlashKeptOutside(old(Dev()), Dev(), at - FLASH_BASE, at - FLASH_BASE + 4)
      ensures old(Fine() && Dev().Cr().pg && Dev().Shaped()) && at % 4 == 0 ==>
        err == NoError && Fine() && Dev().flash == NorPatch(old(Dev()).flash, at - FLASH_BASE, LowBytes(w, 4))
    {
      hide Mapped, Written, View, Link.Prompt, Steady, Calm, Patient, NorPatch, LowBytes, Kept, Link.Valid, Link.Coherent, CoreOf, Change, SameCells,
        AllBlocked, AllStarted;
      ghost var d := Dev();
      MappedMemory(at, 4);
      err := Put(at, 4, w);
      if Dev() != d || err == NoError {
        FlashData(d, at, w, Dev(), base.dm.fates);
      }
      if err == NoError {
        PatientOutlasts(Dev().busy);
        err := WaitReady();
      }
    }

    method PutOptionHalf(at: u32, w: Word) returns (err: Error)
      requires Steady() && InOption(at, 2)
      modifies dbg, this`log, this`dirty, this`waits
      ensures Calm() && (err == NoError ==> Steady())
      ensures old(Exposed()) ==> Exposed()
      ensures old(Safe()) && spi.restoreBlocked ==> Safe()
      ensures old(Strict()) && destructiveStarted ==> Strict()
      ensures Dev().flash == old(Dev()).flash && Dev().cr == old(Dev()).cr
      ensures old(Fine() && Dev().Cr().optpg && Dev().Shaped()) && at % 2 == 0 ==>
        err == NoError && Fine() && Dev().option == NorPatch(old(Dev()).option, at - OPTION_BASE, LowBytes(w, 2))
    {
      hide Mapped, Written, View, Link.Prompt, Steady, Calm, Patient, NorPatch, LowBytes, Kept, Link.Valid, Link.Coherent, CoreOf, Change, SameCells,
        AllBlocked, AllStarted;
      ghost var d := Dev();
      MappedMemory(at, 2);
      err := Put(at, 2, w);
      if Dev() != d || err == NoError {
        OptionData(d, at, w, Dev(), base.dm.fates);
      }
      if err == NoError {
        PatientOutlasts(Dev().busy);
        err := WaitReady();
      }
    }

    // ---- records ----------------------------------------------------------------------------

    /** Enters or leaves a programming mode; no cell moves. */
    method SetMode(clear: Word, set_: Word) returns (err: Error)
      requires Steady()
      requires ProgramModes(clear, set_, Dev())
      modifies dbg, this`log, this`dirty
      ensures Calm() && (err == NoError ==> Steady())
      ensures old(Exposed()) ==> Exposed()
      ensures old(Safe()) ==> Safe()
      ensures old(Strict()) ==> Strict()
      ensures SameCells(old(Dev()), Dev())
      ensures err == NoError ==> NoEraseMode(Dev()) && ModeTaken(old(Dev()), clear, set_, Dev())
      ensures old(Fine() && !Dev().Cr().strt) ==>
        err == NoError && Fine() && Dev().Cr() == Asked(old(Dev()), clear, set_) && !Dev().Cr().strt
    {
      hide Mapped, Written, View, Link.Prompt, Steady, Calm, Patient, Safe, Strict, Merge, Asked, ModeTaken;
      ghost var d := Dev();
      ModeBits(d, clear, set_);
      err := SetControlBits(clear, set_);
      if Dev() != d || err == NoError {
        ModeSet(d, clear, set_, Dev(), base.dm.fates);
      }
    }

    /** One word of a buffer, padded with ones; a word of nothing but ones is skipped. */
    method ProgramWord(at: u32, buffer: array<byte>, offset: nat, remain: nat) returns (err: Error)
      requires Steady() && 0 < remain <= 4 && offset + remain <= buffer.Length && at % 4 == 0
      requires InFlash(at, 4)
      modifies dbg, this`log, this`dirty, this`waits, this`address
      ensures Calm() && (err == NoError ==> Steady())
      ensures old(Exposed()) ==> Exposed()
      ensures old(Safe()) && spi.restoreBlocked ==> Safe()
      ensures old(Strict()) && destructiveStarted ==> Strict()
      ensures Dev().option == old(Dev()).option && Dev().cr == old(Dev()).cr
      ensures FlashKeptOutside(old(Dev()), Dev(), at - FLASH_BASE, at - FLASH_BASE + 4)
      ensures old(Fine() && Dev().Cr().pg) ==> err == NoError && Fine()
      ensures old(Fine() && Dev().Cr().pg && Dev().Shaped()) ==>
        Dev().flash == NorPatch(old(Dev()).flash, at - FLASH_BASE, buffer[offset..offset + remain])
    {
      hide Mapped, Written, View, Link.Prompt, Steady, Calm, Patient, AllBlocked, AllStarted, Fine, NorPatch, Padded, LowBytes;
      SteadyIsCalm();
      SteadyShape();
      var value := PadWord(buffer, offset, remain);
      if value != ALL_ONES_WORD {
        address := at;
        PatchPadded(Dev().flash, at - FLASH_BASE, buffer[offset..offset + remain]);
        err := PutFlashWord(at, value);
      } else {
        PatchSkipped(Dev().flash, at - FLASH_BASE, buffer[offset..offset + remain]);
        err := NoError;
      }
    }

    /** The inner loop: one buffer of payload, word by word. */
    method ProgramChunk(at: u32, buffer: array<byte>, chunk: nat) returns (err: Error)
      requires Steady() && 0 < chunk <= buffer.Length && at % 4 == 0
      requires FLASH_BASE <= at && at + chunk <= FLASH_BASE + FLASH_SIZE && Dev().Shaped()
      modifies dbg, this`log, this`dirty, this`waits, this`address
      ensures Calm() && (err == NoError ==> Steady())
      ensures old(Exposed()) ==> Exposed()
      ensures old(Safe()) && spi.restoreBlocked ==> Safe()
      ensures old(Strict()) && destructiveStarted ==> Strict()
      ensures Dev().option == old(Dev()).option && Dev().cr == old(Dev()).cr
      ensures FlashKeptOutside(old(Dev()), Dev(), at - FLASH_BASE, at - FLASH_BASE + Ceil4(chunk))
      ensures old(Fine() && Dev().Cr().pg) ==>
        err == NoError && Fine() && Dev().flash == NorPatch(old(Dev()).flash, at - FLASH_BASE, buffer[..chunk])
    {
      hide Mapped, Written, View, Link.Prompt, Steady, Calm, Patient, Safe, Strict, Fine, FlashKeptOutside, NorPatch, Ceil4, InFlash;
      ghost var d0 := Dev();
      ghost var from := at - FLASH_BASE;
      WordsFit(0, chunk);
      var offset := 0;
      err := NoError;
      SteadyIsCalm();
      NothingPatched(d0, from, from + Ceil4(chunk));
      while err == NoError && offset < chunk
        invariant 0 <= offset <= chunk && (offset % 4 == 0 || offset == chunk)
        invariant Calm() && (err == NoError ==> Steady())
        invariant old(Exposed()) ==> Exposed()
        invariant old(Safe()) && spi.restoreBlocked ==> Safe()
        invariant old(Strict()) && destructiveStarted ==> Strict()
        invariant Dev().option == d0.option && Dev().cr == d0.cr && Dev().Shaped()
        invariant FlashKeptOutside(d0, Dev(), from, from + Ceil4(chunk))
        invariant old(Fine() && Dev().Cr().pg) ==>
          err == NoError && Fine() && Dev().flash == NorPatch(d0.flash, from, buffer[..offset])
        decreases chunk - offset, err == NoError
      {
        var remain := if chunk - offset > 4 then 4 else chunk - offset;
        ghost var d := Dev();
        NextWord(at, chunk, offset);
        err := ProgramWord(at + offset, buffer, offset, remain);
        CalmShape();
        ChunkStep(d0, d, Dev(), from, from + Ceil4(chunk), offset, buffer[..], remain);
        if err == NoError {
          offset := offset + remain;
        }
      }
    }

    method PadWord(buffer: array<byte>, offset: nat, remain: nat) returns (value: Word)
      requires 0 < remain <= 4 && offset + remain <= buffer.Length
      ensures value == Padded(buffer[offset..offset + remain])
    {
      value := Word(buffer[offset], if remain > 1 then buffer[offset + 1] else ERASED,
                    if remain > 2 then buffer[offset + 2] else ERASED,
                    if remain > 3 then buffer[offset + 3] else ERASED);
    }

    lemma CalmShape()
      requires Calm()
      ensures Dev().Shaped() && Dev().id == base.dm.dev.id
    {
      hide HartUntouched, SameWire;
    }

    /** Seek and read from the in-memory image. */
    method ReadPayload(image: seq<byte>, offset: nat, buffer: array<byte>, size: nat) returns (err: Error)
      requires size <= buffer.Length
      modifies buffer
      ensures err == NoError <==> offset + size <= |image|
      ensures err == NoError ==> buffer[..size] == image[offset..offset + size]
    {
      if offset + size > |image| {
        return Fail;
      }
      forall i | 0 <= i < size {
        buffer[i] := image[offset + i];
      }
      err := NoError;
    }

    /** One round of the outer loop: fill the buffer and program it. */
    method ProgramNext(image: seq<byte>, record: Record, buffer: array<byte>, processed: nat) returns (err: Error, chunk: nat)
      requires Steady() && buffer.Length == IO_CHUNK && record.End() <= |image|
      requires record.kind == Flash && Supported(record) && Dev().Shaped()
      requires processed < record.payloadSize && processed % IO_CHUNK == 0
      modifies dbg, buffer, this`log, this`dirty, this`waits, this`address
      ensures chunk == if record.payloadSize - processed > IO_CHUNK then IO_CHUNK else record.payloadSize - processed
      ensures Calm() && (err == NoError ==> Steady())
      ensures old(Exposed()) ==> Exposed()
      ensures old(Safe()) && spi.restoreBlocked ==> Safe()
      ensures old(Strict()) && destructiveStarted ==> Strict()
      ensures Dev().option == old(Dev()).option && Dev().cr == old(Dev()).cr && Dev().Shaped()
      ensures var at := record.address - FLASH_BASE + processed;
        FlashKeptOutside(old(Dev()), Dev(), at, at + Ceil4(chunk))
      ensures |PayloadOf(image, record)| == record.payloadSize && record.address - FLASH_BASE + processed + chunk <= FLASH_SIZE
      ensures old(Fine() && Dev().Cr().pg) ==> err == NoError && Fine()
      ensures old(Fine() && Dev().Cr().pg) ==>
        Dev().flash == NorPatch(old(Dev()).flash, record.address - FLASH_BASE + processed, PayloadOf(image, record)[processed..processed + chunk])
    {
      hide Mapped, Written, View, Link.Prompt, Steady, Calm, Patient, Safe, Strict, Fine, FlashKeptOutside, NorPatch, Supported, PayloadOf, Kept, Link.Valid,
        Link.Coherent, CoreOf, InFlash, InOption, Ceil4, Device.Shaped;
      FlashBounds(record);
      ChunkAligned(record.address, processed);
      chunk := record.payloadSize - processed;
      if chunk > IO_CHUNK {
        chunk := IO_CHUNK;
      }
      err := ReadPayload(image, record.payloadOffset + processed, buffer, chunk);
      PayloadSlice(image, record, processed, chunk);
      if err == NoError {
        err := ProgramChunk(record.address + processed, buffer, chunk);
      }
      CalmShape();
    }

    /** The outer loop: the whole payload through the buffer. */
    method ProgramPayload(image: seq<byte>, record: Record, buffer: array<byte>) returns (err: Error)
      requires Steady() && buffer.Length == IO_CHUNK && record.End() <= |image|
      requires record.kind == Flash && Supported(record) && Dev().Shaped()
      modifies dbg, buffer, this`log, this`dirty, this`waits, this`address, this`programmedBytes
      ensures Calm() && (err == NoError ==> Steady())
      ensures old(Exposed()) ==> Exposed()
      ensures old(Safe()) && spi.restoreBlocked ==> Safe()
      ensures old(Strict()) && destructiveStarted ==> Strict()
      ensures Dev().option == old(Dev()).option && Dev().cr == old(Dev()).cr
      ensures FlashKeptOutside(old(Dev()), Dev(), record.address - FLASH_BASE, record.address - FLASH_BASE + Ceil4(record.payloadSize))
      ensures err == NoError ==> programmedBytes == old(programmedBytes) + record.payloadSize
      ensures old(Fine() && Dev().Cr().pg) ==>
        && err == NoError && Fine()
        && Dev().flash == NorPatch(old(Dev()).flash, record.address - FLASH_BASE, PayloadOf(image, record))
    {
      hide Mapped, Written, View, Link.Prompt, Steady, Calm, Patient, Safe, Strict, Fine, FlashKeptOutside, NorPatch, PayloadOf,
        Kept, Link.Valid, Link.Coherent, CoreOf, Ceil4, Within, Patched, Supported;
      ghost var d0 := Dev();
      NothingProgrammed(d0, image, record);
      SteadyIsCalm();
      var processed := 0;
      err := NoError;
      while err == NoError && processed < record.payloadSize
        invariant 0 <= processed <= record.payloadSize && (processed % IO_CHUNK == 0 || processed == record.payloadSize)
        invariant Calm() && (err == NoError ==> Steady()) && Dev().Shaped()
        invariant old(Exposed()) ==> Exposed()
        invariant old(Safe()) && spi.restoreBlocked ==> Safe()
        invariant old(Strict()) && destructiveStarted ==> Strict()
        invariant Within(d0, Dev(), record)
        invariant err == NoError ==> programmedBytes == old(programmedBytes) + processed
        invariant old(Fine() && Dev().Cr().pg) ==>
          err == NoError && Fine() && Patched(d0, Dev(), image, record, processed) && Dev().Cr().pg
        decreases record.payloadSize - processed, err == NoError
      {
        ghost var d := Dev();
        var chunk;
        err, chunk := ProgramNext(image, record, buffer, processed);
        SameControl(d, Dev());
        ProgrammedStep(d0, d, Dev(), image, record, processed, chunk);
        if err == NoError {
          processed := processed + chunk;
          programmedBytes := programmedBytes + chunk;
        }
      }
      AllProgrammed(d0, Dev(), image, record);
    }

    method ProgramFlashRecord(image: seq<byte>, record: Record, buffer: array<byte>) returns (err: Error)
      requires Steady() && buffer.Length == IO_CHUNK && record.End() <= |image|
      requires record.kind == Flash && Supported(record)
      modifies dbg, buffer, this`log, this`dirty, this`waits, this`address, this`programmedBytes
      ensures Calm() && (err == NoError ==> Steady())
      ensures old(Exposed()) ==> Exposed()
      ensures old(Safe()) && spi.restoreBlocked ==> Safe()
      ensures old(Strict()) && destructiveStarted ==> Strict()
      ensures Dev().option == old(Dev()).option
      ensures FlashKeptOutside(old(Dev()), Dev(), record.address - FLASH_BASE, record.address - FLASH_BASE + Ceil4(record.payloadSize))
      ensures err == NoError ==> programmedBytes == old(programmedBytes) + record.payloadSize && ProgramOff(Dev())
      ensures old(Fine() && !Dev().Cr().strt) ==>
        && err == NoError && Fine() && !Dev().Cr().strt
        && old(Dev()).Shaped() && Supported(record)
        && Dev().flash == NorPatch(old(Dev()).flash, record.address - FLASH_BASE, PayloadOf(image, record))
    {
      hide Mapped, Written, View, Link.Prompt, Steady, Calm, Patient, Safe, Strict, Fine, FlashKeptOutside, NorPatch, Supported, PayloadOf, Asked, NoEraseMode,
        ModeTaken, ProgramOff;
      ghost var d0, from := Dev(), record.address - FLASH_BASE;
      ghost var to := from + Ceil4(record.payloadSize);
      SteadyShape();
      ProgramAsked(d0);
      err := SetMode(ERASE_AND_OPTPG, PG);
      SameIsKept(d0, Dev(), from, to);
      if err != NoError { return; }
      SteadyShape();
      ghost var d := Dev();
      err := ProgramPayload(image, record, buffer);
      SameThenKept(d0, d, Dev(), from, to);
      SameEraseMode(d, Dev());
      if err != NoError { return; }
      ghost var d1 := d;
      d := Dev();
      err := SetMode(PG, ZERO_WORD);
      KeptSame(d0, d, Dev(), from, to);
      if err == NoError {
        FlashModeLeft(d0, d1, d, Dev());
      }
    }

    /** One option half-word; 0xffff is skipped. */
    method ProgramOptionHalf(at: u32, low: byte, high: byte) returns (err: Error)
      requires Steady() && InOption(at, 2) && at % 2 == 0
      modifies dbg, this`log, this`dirty, this`waits, this`address
      ensures Calm() && (err == NoError ==> Steady())
      ensures old(Exposed()) ==> Exposed()
      ensures old(Safe()) && spi.restoreBlocked ==> Safe()
      ensures old(Strict()) && destructiveStarted ==> Strict()
      ensures Dev().flash == old(Dev()).flash && Dev().cr == old(Dev()).cr && Dev().Shaped()
      ensures old(Fine() && Dev().Cr().optpg) ==> err == NoError && Fine()
      ensures old(Fine() && Dev().Cr().optpg && Dev().Shaped()) ==>
        Dev().option == NorPatch(old(Dev()).option, at - OPTION_BASE, [low, high])
    {
      hide Mapped, Written, View, Link.Prompt, Steady, Calm, Patient, AllBlocked, AllStarted, Fine, NorPatch;
      SteadyIsCalm();
      SteadyShape();
      if !(low == ERASED && high == ERASED) {
        address := at;
        err := PutOptionHalf(at, Word(low, high, 0, 0));
      } else {
        PatchOnes(Dev().option, at - OPTION_BASE, [low, high]);
        err := NoError;
      }
      CalmShape();
    }

    method ProgramOptionPayload(payload: seq<byte>) returns (err: Error)
      requires Steady() && |payload| == OPTION_SIZE && Dev().Shaped()
      modifies dbg, this`log, this`dirty, this`waits, this`address
      ensures Calm() && (err == NoError ==> Steady())
      ensures old(Exposed()) ==> Exposed()
      ensures old(Safe()) && spi.restoreBlocked ==> Safe()
      ensures old(Strict()) && destructiveStarted ==> Strict()
      ensures Dev().flash == old(Dev()).flash && Dev().cr == old(Dev()).cr && Dev().Shaped()
      ensures old(Fine() && Dev().Cr().optpg) ==>
        err == NoError && Fine() && Dev().option == NorPatch(old(Dev()).option, 0, payload)
    {
      hide Mapped, Written, View, Link.Prompt, Steady, Calm, Patient, Safe, Strict, Fine, NorPatch;
      ghost var d0 := Dev();
      PatchNothing(d0.option, 0);
      SteadyIsCalm();
      var offset := 0;
      err := NoError;
      while err == NoError && offset < OPTION_SIZE
        invariant 0 <= offset <= OPTION_SIZE && offset % 2 == 0
        invariant Calm() && (err == NoError ==> Steady())
        invariant old(Exposed()) ==> Exposed()
        invariant old(Safe()) && spi.restoreBlocked ==> Safe()
        invariant old(Strict()) && destructiveStarted ==> Strict()
        invariant Dev().flash == d0.flash && Dev().cr == d0.cr && Dev().Shaped()
        invariant old(Fine() && Dev().Cr().optpg) ==>
          err == NoError && Fine() && Dev().option == NorPatch(d0.option, 0, payload[..offset])
        decreases OPTION_SIZE - offset, err == NoError
      {
        PatchConcat(d0.option, 0, payload[..offset], [payload[offset], payload[offset + 1]]);
        assert payload[..offset + 2] == payload[..offset] + [payload[offset], payload[offset + 1]];
        err := ProgramOptionHalf(OPTION_BASE + offset, payload[offset], payload[offset + 1]);
        if err == NoError {
          offset := offset + 2;
        }
      }
      assert payload[..OPTION_SIZE] == payload;
    }

    method ProgramOptionRecord(image: seq<byte>, record: Record) returns (err: Error)
      requires Steady() && record.End() <= |image|
      requires record.address == OPTION_BASE && record.payloadSize == OPTION_SIZE
      modifies dbg, this`log, this`dirty, this`waits, this`address
      ensures Calm() && (err == NoError ==> Steady())
      ensures old(Exposed()) ==> Exposed()
      ensures old(Safe()) && spi.restoreBlocked ==> Safe()
      ensures old(Strict()) && destructiveStarted ==> Strict()
      ensures Dev().flash == old(Dev()).flash && (err == NoError ==> ProgramOff(Dev()))
      ensures old(Fine() && !Dev().Cr().strt) ==>
        && err == NoError && Fine() && !Dev().Cr().strt
        && old(Dev()).Shaped() && |PayloadOf(image, record)| == OPTION_SIZE
        && Dev().option == NorPatch(old(Dev()).option, 0, PayloadOf(image, record))
    {
      hide Mapped, Written, View, Link.Prompt, Steady, Calm, Patient, Safe, Strict, Fine, NorPatch, PayloadOf, Asked, NoEraseMode, ModeTaken, ProgramOff;
      ghost var d0 := Dev();
      SteadyShape();
      PayloadSlice(image, record, 0, OPTION_SIZE);
      var payload := PayloadOf(image, record);
      OptionAsked(d0);
      err := SetMode(ERASE_AND_PG, BOTH_PG);
      if err != NoError { return; }
      SteadyShape();
      ghost var d := Dev();
      err := ProgramOptionPayload(payload);
      SameEraseMode(d, Dev());
      if err != NoError { return; }
      ghost var d1 := Dev();
      err := SetMode(BOTH_PG, ZERO_WORD);
      if err == NoError {
        OptionModeLeft(d1, Dev());
      }
    }

    // ---- verification ---------------------------------------------------------------------------

    /** Reads a chunk back word by word and compares only the payload's bytes. */
    method VerifyChunk(at: u32, buffer: array<byte>, chunk: nat) returns (err: Error)
      requires Steady() && 0 < chunk <= buffer.Length && at % 4 == 0 && Dev().Shaped()
      requires InFlash(at, Ceil4(chunk)) || InOption(at, Ceil4(chunk))
      modifies dbg, this`address
      ensures Calm() && (err == NoError ==> Steady())
      ensures Dev() == old(Dev())
      ensures err == NoError ==> Cells(Dev(), at, chunk) == buffer[..chunk]
      ensures old(dbg.Prompt()) ==>
        dbg.Prompt() && Steady() && (err == NoError <==> Cells(Dev(), at, chunk) == buffer[..chunk])
    {
      hide Mapped, Written, View, Link.Prompt, Steady, Calm, ReadBus, AfterRead, LowBytes, Cells;
      ghost var d := Dev();
      SteadyIsCalm();
      CellsEmpty(d, at, chunk, buffer[..]);
      var offset := 0;
      while offset < chunk
        invariant 0 <= offset <= chunk && (offset % 4 == 0 || offset == chunk)
        invariant Steady() && Calm() && Dev() == d
        invariant Cells(d, at, offset) == buffer[..offset]
        invariant old(dbg.Prompt()) ==> dbg.Prompt()
        decreases chunk - offset
      {
        var remain := if chunk - offset > 4 then 4 else chunk - offset;
        address := at + offset;
        VerifyWord(at, chunk, offset);
        var actual;
        err, actual := Get(at + offset);
        CellsStep(d, at, offset, remain, chunk, buffer[..]);
        if err != NoError {
          return;
        }
        if LowBytes(actual, 4)[..remain] != buffer[offset..offset + remain] {
          SteadyIsCalm();
          return InvalidCrc;
        }
        offset := offset + remain;
        SteadyIsCalm();
      }
      err := NoError;
    }

    /** One round of verification: refill the buffer and compare. */
    method VerifyNext(image: seq<byte>, record: Record, buffer: array<byte>, processed: nat) returns (err: Error, chunk: nat)
      requires Steady() && buffer.Length == IO_CHUNK && Verifiable(Dev(), image, record)
      requires processed < record.payloadSize && processed % IO_CHUNK == 0
      modifies dbg, buffer, this`address
      ensures Calm() && (err == NoError ==> Steady())
      ensures Dev() == old(Dev())
      ensures 0 < chunk && processed + chunk <= record.payloadSize
      ensures processed + chunk == record.payloadSize || (processed + chunk) % IO_CHUNK == 0
      ensures err == NoError ==> SameChunk(Dev(), image, record, processed, chunk)
      ensures old(dbg.Prompt()) ==>
        dbg.Prompt() && Steady() && (err == NoError <==> SameChunk(Dev(), image, record, processed, chunk))
    {
      hide Mapped, Written, View, Link.Prompt, Link.Valid, Link.Coherent, Steady, Calm, Kept, Cells, PayloadOf, CoreOf;
      chunk := record.payloadSize - processed;
      if chunk > IO_CHUNK {
        chunk := IO_CHUNK;
      }
      ChunkAligned(record.address, processed);
      SteadyIsCalm();
      err := ReadPayload(image, record.payloadOffset + processed, buffer, chunk);
      PayloadSlice(image, record, processed, chunk);
      WordsFit(processed, record.payloadSize);
      if err == NoError {
        err := VerifyChunk(record.address + processed, buffer, chunk);
      }
    }

    method VerifyRecord(image: seq<byte>, record: Record, buffer: array<byte>) returns (err: Error)
      requires Steady() && buffer.Length == IO_CHUNK && Verifiable(Dev(), image, record)
      modifies dbg, buffer, this`address, this`verifiedBytes
      ensures Calm() && (err == NoError ==> Steady())
      ensures Dev() == old(Dev())
      ensures err == NoError ==> Holds(Dev(), record, PayloadOf(image, record))
      ensures err == NoError ==> verifiedBytes == old(verifiedBytes) + record.payloadSize
      ensures old(dbg.Prompt()) ==>
        dbg.Prompt() && Steady() && (err == NoError <==> Holds(Dev(), record, PayloadOf(image, record)))
    {
      hide Link.Prompt, Link.Valid, Link.Coherent, Steady, Calm, Kept, Verified, Holds, SameChunk, PayloadOf;
      ghost var d := Dev();
      NothingVerified(d, image, record);
      SteadyIsCalm();
      var processed := 0;
      while processed < record.payloadSize
        invariant 0 <= processed <= record.payloadSize && (processed % IO_CHUNK == 0 || processed == record.payloadSize)
        invariant Steady() && Calm() && Dev() == d
        invariant Verified(d, image, record, processed)
        invariant verifiedBytes == old(verifiedBytes) + processed
        invariant old(dbg.Prompt()) ==> dbg.Prompt()
        decreases record.payloadSize - processed
      {
        var chunk;
        err, chunk := VerifyNext(image, record, buffer, processed);
        VerifiedStep(d, image, record, processed, chunk);
        if err != NoError {
          return;
        }
        processed := processed + chunk;
        verifiedBytes := verifiedBytes + chunk;
        SteadyIsCalm();
      }
      AllVerified(d, image, record);
      err := NoError;
    }

    lemma PatientOutlasts(busy: nat)
      ensures Patient(deadlines, base.dm.fates) && (exists t: nat :: busy == base.dm.fates(t).delay) ==> Outlasted(busy)
    {}
  }

  lemma NotMemory()
    ensures !InFlash(CR, 4) && !InOption(CR, 4) && !InFlash(SR, 4) && !InOption(SR, 4) && !InFlash(AR, 4) && !InOption(AR, 4)
    ensures !InFlash(KEYR, 4) && !InOption(KEYR, 4) && !InFlash(OPTKEYR, 4) && !InOption(OPTKEYR, 4)
  {}

  /** The second key opens a lock whose first key has arrived. */
  lemma KeysOpen(d: Device)
    ensures d.keys == 1 ==> View(CrAfter(d, KEYR, 4, KEY2)) == d.Cr().(lock := false)
    ensures d.optKeys == 1 && !d.Cr().lock ==> View(CrAfter(d, OPTKEYR, 4, KEY2)) == d.Cr().(optwre := true)
  {
    hide View, Change, Merge;
    LockViews();
    ViewChange(d.cr, Word(0x80, 0, 0, 0), ZERO_WORD);
    ViewChange(d.cr, ZERO_WORD, Word(0, 0x02, 0, 0));
    MergeUnlock(d.Cr());
    MergeOptwre(d.Cr());
  }

  lemma LockViews()
    ensures View(ZERO_WORD) == NO_FLAGS && View(Word(0x80, 0, 0, 0)) == NO_FLAGS.(lock := true)
    ensures View(Word(0, 0x02, 0, 0)) == NO_FLAGS.(optwre := true)
  {}

  lemma MergeUnlock(c: Control)
    ensures Merge(c, NO_FLAGS.(lock := true), NO_FLAGS) == c.(lock := false)
  {}

  lemma MergeOptwre(c: Control)
    ensures Merge(c, NO_FLAGS, NO_FLAGS.(optwre := true)) == c.(optwre := true)
  {}

  lemma MergeStart(c: Control)
    ensures Merge(c, NO_FLAGS, NO_FLAGS.(strt := true)) == c.(strt := true)
  {}

  lemma LocksTrans(a: Device, b: Device, c: Device)
    ensures SameCells(a, b) && SameCells(b, c) ==> SameCells(a, c)
    ensures SameButLocks(a.Cr(), b.Cr()) && SameButLocks(b.Cr(), c.Cr()) ==> SameButLocks(a.Cr(), c.Cr())
  {
    hide View;
  }

  lemma KeysWait(d: Device, addr: int)
    ensures CrAfter(d, KEYR, 4, KEY1) == d.cr && CrAfter(d, OPTKEYR, 4, KEY1) == d.cr
  {
    hide View, Change;
  }

  function EraseMode(mode: Word): Control {
    if mode == SER then NO_FLAGS.(ser := true, optwre := true) else NO_FLAGS.(opter := true, optwre := true)
  }

  lemma EraseModeAsked(d: Device, mode: Word)
    requires mode == SER || mode == OPTER
    ensures Asked(d, ERASE_AND_MODES, mode) ==
      EraseMode(mode).(strt := d.Cr().strt, lock := d.Cr().lock, optwre := d.Cr().optwre)
  {
    hide View;
    ControlMasks();
    WideMasks();
  }

  /** Setting an erase mode: no cell moves unless a start bit was already standing, and
      then only where this erase is aimed anyway. */
  lemma EraseModeSet(d: Device, mode: Word, d': Device, fates: nat -> Fate)
    requires mode == SER || mode == OPTER
    requires Written(d, CR, 4, Change(d.cr, ERASE_AND_MODES, mode), d', fates)
    ensures d'.ar == d.ar && KeptByErase(d, d', mode, d.ar)
    ensures !d'.Cr().lock ==> d'.Cr() == EraseMode(mode).(strt := d'.Cr().strt, optwre := d'.Cr().optwre)
    ensures SoundBus(fates) && Unlocked(d) && !d.Cr().strt ==>
      SameCells(d, d') && SameStatus(d, d') && d'.Cr() == EraseMode(mode)
    ensures SoundBus(fates) && Unlocked(d) && d.Cr().strt ==> ErasedExactly(d, d', mode, d.ar)
  {
    hide View, Written, Change, Merge, SectorStart, Asked, Erase;
    EraseModeAsked(d, mode);
    ControlCells(d, ERASE_AND_MODES, mode, d', fates);
    ControlBitsAfter(d, ERASE_AND_MODES, mode, d', fates);
    if SoundBus(fates) {
      ControlSound(d, ERASE_AND_MODES, mode, d', fates);
    }
  }

  /** An erase of one kind leaves the other memory alone, and flash outside its sector. */
  ghost predicate KeptByErase(d: Device, d': Device, mode: Word, at: int) {
    && |d'.flash| == |d.flash|
    && (mode == SER ==> d'.option == d.option && FlashKeptOutside(d, d', SectorStart(at), SectorStart(at) + SECTOR_SIZE))
    && (mode == OPTER ==> d'.flash == d.flash)
  }

  /** A sound erase: all ones in the sector, or the page, and nothing else changed. */
  ghost predicate ErasedExactly(d: Device, d': Device, mode: Word, at: int) {
    && d'.flash == (if mode == SER then Erase(d.flash, SectorStart(at), SectorStart(at) + SECTOR_SIZE) else d.flash)
    && d'.option == (if mode == OPTER then Erase(d.option, 0, OPTION_SIZE) else d.option)
  }

  lemma ModesQuiet(mode: Word)
    requires mode == SER || mode == OPTER
    ensures !View(mode).strt && !View(ZERO_WORD).strt
  {
    hide View;
    ControlMasks();
  }

  lemma QuietStart(d: Device, d1: Device, mode: Word, at: int)
    ensures SameCells(d, d1) ==> KeptByErase(d, d1, mode, at)
  {}

  /** Steps that move no cell, and set the address where it counts, come before. */
  lemma AfterQuiet(d: Device, d1: Device, d2: Device, mode: Word, at: int)
    requires SameCells(d, d1) && (mode == SER ==> d1.ar == at)
    ensures KeptByErase(d1, d2, mode, d1.ar) ==> KeptByErase(d, d2, mode, at)
    ensures ErasedExactly(d1, d2, mode, d1.ar) ==> ErasedExactly(d, d2, mode, at)
    ensures d1 == d2 ==> KeptByErase(d, d2, mode, at)
  {
    hide SectorStart, Erase;
  }

  lemma KeptTrans(d: Device, d1: Device, d2: Device, mode: Word, at: int)
    ensures KeptByErase(d, d1, mode, at) && KeptByErase(d1, d2, mode, at) ==> KeptByErase(d, d2, mode, at)
    ensures KeptByErase(d, d1, mode, at) && SameCells(d1, d2) ==> KeptByErase(d, d2, mode, at)
    ensures mode == OPTER && KeptByErase(d, d1, mode, d.ar) ==> KeptByErase(d, d1, mode, at)
    ensures mode == OPTER && KeptByErase(d1, d2, mode, d1.ar) ==> KeptByErase(d1, d2, mode, at)
  {
    hide SectorStart;
  }

  /** The sectors of a range, as addresses and as offsets. */
  lemma SectorSpan(at: int, size: nat)
    requires size > 0
    ensures var first, end := at / SECTOR_SIZE * SECTOR_SIZE, (at + size + SECTOR_SIZE - 1) / SECTOR_SIZE * SECTOR_SIZE;
      && SpanStart(at) == first - FLASH_BASE && SpanEnd(at + size) == end - FLASH_BASE
      && first % SECTOR_SIZE == 0 && end % SECTOR_SIZE == 0 && first <= at && first < end
      && (at + size <= FLASH_BASE + FLASH_SIZE ==> end <= FLASH_BASE + FLASH_SIZE)
      && (at >= FLASH_BASE ==> first >= FLASH_BASE)
  {}

  lemma NextSector(current: int, end: int)
    requires current % SECTOR_SIZE == 0 && end % SECTOR_SIZE == 0 && current < end
    ensures current + SECTOR_SIZE <= end && (current + SECTOR_SIZE) % SECTOR_SIZE == 0
  {}

  lemma NothingErased(d: Device, at: int)
    ensures Erase(d.flash, at, at) == d.flash && FlashKeptOutside(d, d, at, at)
  {
    EraseNothing(d.flash, at);
  }

  lemma WidenKept(d: Device, d': Device, from: int, to: int, further: int)
    requires FlashKeptOutside(d, d', from, to) && to <= further
    ensures FlashKeptOutside(d, d', from, further)
  {}

  /** One more sector of a range erase. */
  lemma RangeStep(d0: Device, d: Device, d': Device, from: int, current: int)
    requires KeptByErase(d, d', SER, current) && current % SECTOR_SIZE == 0 && from <= current - FLASH_BASE
    requires d.option == d0.option && FlashKeptOutside(d0, d, from, current - FLASH_BASE)
    ensures d'.option == d0.option && FlashKeptOutside(d0, d', from, current + SECTOR_SIZE - FLASH_BASE)
    ensures ErasedExactly(d, d', SER, current) && d.flash == Erase(d0.flash, from, current - FLASH_BASE) ==>
      d'.flash == Erase(d0.flash, from, current + SECTOR_SIZE - FLASH_BASE)
  {
    SectorAligned(current);
    EraseConcat(d0.flash, from, current - FLASH_BASE, current + SECTOR_SIZE - FLASH_BASE);
  }

  lemma MappedMemory(at: int, n: nat)
    ensures InFlash(at, n) || InOption(at, n) ==> Mapped(at, n)
  {}

  predicate NoEraseMode(d: Device) { d.Cr().lock || (!d.Cr().ser && !d.Cr().mer && !d.Cr().ber && !d.Cr().opter) }

  /** The masked updates that enter and leave programming: never a start or erase bit, and
      standing erase bits cleared unless there are none. */
  predicate ProgramModes(clear: Word, set_: Word, d: Device) {
    || (clear == ERASE_AND_PG && set_ == BOTH_PG)
    || (clear == ERASE_AND_OPTPG && set_ == PG)
    || ((clear == BOTH_PG || clear == PG) && set_ == ZERO_WORD && NoEraseMode(d))
  }

  lemma ModeBits(d: Device, clear: Word, set_: Word)
    requires ProgramModes(clear, set_, d)
    ensures !View(set_).strt
    ensures Asked(d, clear, set_).lock == d.Cr().lock && Asked(d, clear, set_).optwre == d.Cr().optwre
    ensures Asked(d, clear, set_).strt == d.Cr().strt
    ensures d.Cr().lock || (!Asked(d, clear, set_).ser && !Asked(d, clear, set_).mer && !Asked(d, clear, set_).ber && !Asked(d, clear, set_).opter)
  {
    hide View, Merge, Asked, PG, BOTH_PG, ERASE_AND_PG, ERASE_AND_OPTPG, ZERO_WORD, Device.Cr;
    ModeStart();
    ModeMerges(d);
  }

  lemma ModeStart()
    ensures !View(BOTH_PG).strt && !View(PG).strt && !View(ZERO_WORD).strt
  {
    hide View;
    ControlMasks();
    WideMasks();
  }

  /** What the four mode changes of programming make of the register. */
  lemma ModeMerges(d: Device)
    ensures Asked(d, ERASE_AND_PG, BOTH_PG) ==
      d.Cr().(ser := false, mer := false, ber := false, opter := false, pg := true, optpg := true)
    ensures Asked(d, ERASE_AND_OPTPG, PG) ==
      d.Cr().(ser := false, mer := false, ber := false, opter := false, pg := true, optpg := false)
    ensures Asked(d, BOTH_PG, ZERO_WORD) == d.Cr().(pg := false, optpg := false)
    ensures Asked(d, PG, ZERO_WORD) == d.Cr().(pg := false)
  {
    hide View, Device.Cr;
    ControlMasks();
    WideMasks();
  }

  /** Unless the controller is locked the programming modes are as asked. */
  predicate ModeTaken(d: Device, clear: Word, set_: Word, d': Device) {
    d'.Cr().lock || (!d.Cr().lock && d'.Cr().pg == Asked(d, clear, set_).pg && d'.Cr().optpg == Asked(d, clear, set_).optpg)
  }

  /** No programming mode is on, or the controller is locked. */
  predicate ProgramOff(d: Device) { d.Cr().lock || (!d.Cr().pg && !d.Cr().optpg) }

  lemma OptionModeLeft(d: Device, d': Device)
    requires ModeTaken(d, BOTH_PG, ZERO_WORD, d')
    ensures ProgramOff(d')
  {
    hide View, Merge, Asked, PG, BOTH_PG, ERASE_AND_PG, ERASE_AND_OPTPG, ZERO_WORD, Device.Cr;
    ModeMerges(d);
  }

  lemma FlashModeLeft(d0: Device, d: Device, d1: Device, d': Device)
    requires ModeTaken(d0, ERASE_AND_OPTPG, PG, d) && d1.cr == d.cr && ModeTaken(d1, PG, ZERO_WORD, d')
    ensures ProgramOff(d')
  {
    hide View, Merge, Asked, PG, BOTH_PG, ERASE_AND_PG, ERASE_AND_OPTPG, ZERO_WORD;
    ModeMerges(d0);
    ModeMerges(d1);
  }

  lemma ModeSet(d: Device, clear: Word, set_: Word, d': Device, fates: nat -> Fate)
    requires ProgramModes(clear, set_, d) && Written(d, CR, 4, Change(d.cr, clear, set_), d', fates)
    ensures SameCells(d, d') && NoEraseMode(d')
    ensures ModeTaken(d, clear, set_, d')
    ensures SoundBus(fates) && Unlocked(d) && !d.Cr().strt ==>
      SameStatus(d, d') && d'.Cr() == Asked(d, clear, set_) && Unlocked(d') && !d'.Cr().strt
  {
    hide View, Written, Change, Merge, Asked, SectorStart;
    ModeBits(d, clear, set_);
    ControlCells(d, clear, set_, d', fates);
    ControlBitsAfter(d, clear, set_, d', fates);
    if SoundBus(fates) {
      ControlSound(d, clear, set_, d', fates);
    }
  }

  lemma NothingPatched(d: Device, at: nat, to: int)
    requires at <= |d.flash|
    ensures NorPatch(d.flash, at, []) == d.flash && FlashKeptOutside(d, d, at, to)
  {
    PatchNothing(d.flash, at);
  }

  /** One more word of a chunk. */
  lemma ChunkStep(d0: Device, d: Device, d': Device, from: nat, to: int, offset: nat, buffer: seq<byte>, n: nat)
    requires d0.Shaped() && d.Shaped() && d'.Shaped()
    requires 0 < n && offset + n <= |buffer| && from + offset + n <= FLASH_SIZE && from + offset + 4 <= to
    requires FlashKeptOutside(d0, d, from, to) && FlashKeptOutside(d, d', from + offset, from + offset + 4)
    ensures FlashKeptOutside(d0, d', from, to)
    ensures (d.flash == NorPatch(d0.flash, from, buffer[..offset])
             && d'.flash == NorPatch(d.flash, from + offset, buffer[offset..offset + n])) ==>
      d'.flash == NorPatch(d0.flash, from, buffer[..offset + n])
  {
    hide NorPatch;
    assert buffer[..offset + n] == buffer[..offset] + buffer[offset..offset + n];
    PatchConcat(d0.flash, from, buffer[..offset], buffer[offset..offset + n]);
  }

  const IO_CHUNK: nat := 1024

  lemma FlashBounds(r: Record)
    requires r.kind == Flash && Supported(r)
    ensures r.address % 4 == 0 && FLASH_BASE <= r.address && r.AddressEnd() <= FLASH_BASE + FLASH_SIZE && r.payloadSize > 0
    ensures r.address - FLASH_BASE + Ceil4(r.payloadSize) <= FLASH_SIZE
    ensures r.eraseOptions == 1 ==> r.address % SECTOR_SIZE == 0
  {}

  lemma ChunkAligned(at: nat, done: nat)
    requires at % 4 == 0 && done % IO_CHUNK == 0
    ensures (at + done) % 4 == 0
  {
    var j, k := at / 4, done / 1024;
    assert at == 4 * j && done == 1024 * k;
    assert at + done == 4 * (j + 256 * k);
  }

  lemma ProgramAsked(d: Device)
    ensures Asked(d, ERASE_AND_OPTPG, PG).pg
  {
    hide View;
    ControlMasks();
    WideMasks();
  }

  lemma PayloadSlice(image: seq<byte>, r: Record, i: nat, n: nat)
    requires r.End() <= |image| && i + n <= r.payloadSize
    ensures |PayloadOf(image, r)| == r.payloadSize
    ensures PayloadOf(image, r)[i..i + n] == image[r.payloadOffset + i..r.payloadOffset + i + n]
  {}

  lemma SameThenKept(d0: Device, d: Device, d': Device, from: int, to: int)
    requires SameCells(d0, d) && FlashKeptOutside(d, d', from, to)
    ensures FlashKeptOutside(d0, d', from, to)
  {}

  lemma SameIsKept(d: Device, d': Device, from: int, to: int)
    requires SameCells(d, d')
    ensures FlashKeptOutside(d, d', from, to)
  {}

  lemma KeptSame(d0: Device, d: Device, d': Device, from: int, to: int)
    requires FlashKeptOutside(d0, d, from, to) && SameCells(d, d')
    ensures FlashKeptOutside(d0, d', from, to)
  {}

  lemma SameEraseMode(d: Device, d': Device)
    requires d'.cr == d.cr
    ensures NoEraseMode(d) == NoEraseMode(d') && d.Cr() == d'.Cr()
  {
    hide View;
  }

  /** Nothing but a flash record's words has moved. */
  ghost predicate Within(d0: Device, d: Device, r: Record) {
    && d.option == d0.option && d.cr == d0.cr && d.Shaped()
    && FlashKeptOutside(d0, d, r.address - FLASH_BASE, r.address - FLASH_BASE + Ceil4(r.payloadSize))
  }

  /** The first bytes of a flash record have been programmed over what was there. */
  ghost predicate Patched(d0: Device, d: Device, image: seq<byte>, r: Record, done: nat)
    requires d0.Shaped() && r.kind == Flash && Supported(r)
  {
    && |PayloadOf(image, r)| == r.payloadSize && done <= r.payloadSize
    && d.flash == NorPatch(d0.flash, r.address - FLASH_BASE, PayloadOf(image, r)[..done])
  }

  lemma SameControl(d: Device, d': Device)
    ensures d'.cr == d.cr ==> d'.Cr() == d.Cr()
  {
    hide View;
  }

  lemma NothingProgrammed(d: Device, image: seq<byte>, r: Record)
    requires d.Shaped() && r.kind == Flash && Supported(r) && r.End() <= |image|
    ensures Within(d, d, r) && Patched(d, d, image, r, 0)
  {
    hide NorPatch, PayloadOf;
    FlashBounds(r);
    PayloadSlice(image, r, 0, 0);
    NothingPatched(d, r.address - FLASH_BASE, r.address - FLASH_BASE + Ceil4(r.payloadSize));
  }

  lemma ProgrammedStep(d0: Device, d: Device, d': Device, image: seq<byte>, r: Record, done: nat, n: nat)
    requires d0.Shaped() && d.Shaped() && d'.Shaped() && r.kind == Flash && Supported(r) && r.End() <= |image|
    requires done % IO_CHUNK == 0 && done + n <= r.payloadSize && Within(d0, d, r)
    requires d'.option == d.option && d'.cr == d.cr
    requires FlashKeptOutside(d, d', r.address - FLASH_BASE + done, r.address - FLASH_BASE + done + Ceil4(n))
    ensures Within(d0, d', r) && |PayloadOf(image, r)| == r.payloadSize && 0 <= r.address - FLASH_BASE
    ensures r.address - FLASH_BASE + done + n <= FLASH_SIZE
    ensures Patched(d0, d, image, r, done)
        && d'.flash == NorPatch(d.flash, r.address - FLASH_BASE + done, PayloadOf(image, r)[done..done + n])
      ==> Patched(d0, d', image, r, done + n)
  {
    hide NorPatch, PayloadOf, FlashKeptOutside, Supported, Ceil4;
    FlashBounds(r);
    PayloadSlice(image, r, done, n);
    WholeWords(done);
    var from := r.address - FLASH_BASE;
    RecordStep(d0, d, d', from, from + Ceil4(r.payloadSize), done, PayloadOf(image, r), n, r.payloadSize);
  }

  lemma WholeWords(done: nat)
    requires done % IO_CHUNK == 0
    ensures done % 4 == 0
  {}

  lemma AllProgrammed(d0: Device, d: Device, image: seq<byte>, r: Record)
    requires d0.Shaped() && r.kind == Flash && Supported(r)
    ensures Patched(d0, d, image, r, r.payloadSize) ==>
      d.flash == NorPatch(d0.flash, r.address - FLASH_BASE, PayloadOf(image, r))
    ensures Within(d0, d, r) ==>
      && d.option == d0.option && d.cr == d0.cr
      && FlashKeptOutside(d0, d, r.address - FLASH_BASE, r.address - FLASH_BASE + Ceil4(r.payloadSize))
  {
    hide NorPatch, FlashKeptOutside, PayloadOf;
    if |PayloadOf(image, r)| == r.payloadSize {
      assert PayloadOf(image, r)[..r.payloadSize] == PayloadOf(image, r);
    }
  }

  /** One more chunk of a record. */
  lemma RecordStep(d0: Device, d: Device, d': Device, from: nat, to: int, done: nat, payload: seq<byte>, n: nat, size: nat)
    requires d0.Shaped() && d.Shaped() && d'.Shaped()
    requires done % 4 == 0 && done + n <= size == |payload| && from + size <= FLASH_SIZE && to == from + Ceil4(size)
    requires FlashKeptOutside(d0, d, from, to) && FlashKeptOutside(d, d', from + done, from + done + Ceil4(n))
    ensures FlashKeptOutside(d0, d', from, to)
    ensures (d.flash == NorPatch(d0.flash, from, payload[..done]) && d'.flash == NorPatch(d.flash, from + done, payload[done..done + n])) ==>
      d'.flash == NorPatch(d0.flash, from, payload[..done + n])
  {
    hide NorPatch;
    assert payload[..done + n] == payload[..done] + payload[done..done + n];
    PatchConcat(d0.flash, from, payload[..done], payload[done..done + n]);
    assert done + Ceil4(n) <= Ceil4(size);
  }

  lemma OptionAsked(d: Device)
    ensures Asked(d, ERASE_AND_PG, BOTH_PG).optpg
  {
    hide View;
    ControlMasks();
    WideMasks();
  }

  /** What the target holds at a bus range. */
  function Cells(d: Device, at: int, n: nat): seq<byte>
    requires d.Shaped() && (InFlash(at, n) || InOption(at, n))
  {
    Stored(MemoryOf(d), at, n)
  }

  /** The target's bytes at a record's addresses are its payload. */
  ghost predicate Holds(d: Device, r: Record, payload: seq<byte>) { Retains(MemoryOf(d), r, payload) }

  lemma HoldsIs(d: Device, r: Record, payload: seq<byte>)
    ensures Holds(d, r, payload) <==>
      && d.Shaped() && (InFlash(r.address, r.payloadSize) || InOption(r.address, r.payloadSize))
      && Cells(d, r.address, r.payloadSize) == payload
  {}

  /** A record whose whole words lie in the target's memory and whose payload is in the file. */
  ghost predicate Verifiable(d: Device, image: seq<byte>, r: Record) {
    && d.Shaped() && r.End() <= |image| && r.address % 4 == 0 && r.payloadSize > 0
    && (InFlash(r.address, Ceil4(r.payloadSize)) || InOption(r.address, Ceil4(r.payloadSize)))
  }

  ghost predicate SameChunk(d: Device, image: seq<byte>, r: Record, done: nat, chunk: nat)
    requires Verifiable(d, image, r) && done + chunk <= r.payloadSize
  {
    && |PayloadOf(image, r)| == r.payloadSize
    && Cells(d, r.address + done, chunk) == PayloadOf(image, r)[done..done + chunk]
  }

  /** The record's first bytes are in place. */
  ghost predicate Verified(d: Device, image: seq<byte>, r: Record, done: nat)
    requires Verifiable(d, image, r) && done <= r.payloadSize
  {
    |PayloadOf(image, r)| == r.payloadSize && Cells(d, r.address, done) == PayloadOf(image, r)[..done]
  }

  lemma NothingVerified(d: Device, image: seq<byte>, r: Record)
    requires Verifiable(d, image, r)
    ensures Verified(d, image, r, 0)
  {
    PayloadSlice(image, r, 0, 0);
    CellsEmpty(d, r.address, r.payloadSize, PayloadOf(image, r));
  }

  lemma VerifiedStep(d: Device, image: seq<byte>, r: Record, done: nat, chunk: nat)
    requires Verifiable(d, image, r) && done + chunk <= r.payloadSize && Verified(d, image, r, done)
    ensures SameChunk(d, image, r, done, chunk) ==> Verified(d, image, r, done + chunk)
    ensures Holds(d, r, PayloadOf(image, r)) ==> SameChunk(d, image, r, done, chunk)
  {
    hide Cells, Holds, PayloadOf;
    HoldsIs(d, r, PayloadOf(image, r));
    CellsSplit(d, r.address, done, chunk, r.payloadSize, PayloadOf(image, r));
  }

  lemma AllVerified(d: Device, image: seq<byte>, r: Record)
    requires Verifiable(d, image, r) && Verified(d, image, r, r.payloadSize)
    ensures Holds(d, r, PayloadOf(image, r))
  {
    hide Cells, Holds, PayloadOf;
    HoldsIs(d, r, PayloadOf(image, r));
    assert PayloadOf(image, r)[..r.payloadSize] == PayloadOf(image, r);
  }

  lemma CellsEmpty(d: Device, at: int, n: nat, bytes: seq<byte>)
    requires d.Shaped() && (InFlash(at, n) || InOption(at, n))
    ensures (InFlash(at, 0) || InOption(at, 0)) && Cells(d, at, 0) == bytes[..0]
  {}

  lemma WordsFit(offset: nat, n: nat)
    ensures offset % 4 == 0 && offset < n ==> offset + 4 <= Ceil4(n)
    ensures offset % 4 == 0 && offset <= n ==> offset + Ceil4(n - offset) == Ceil4(n)
  {}

  /** Reading one word settles the comparison of its bytes. */
  lemma NextWord(at: int, chunk: nat, offset: nat)
    requires at % 4 == 0 && offset % 4 == 0 && offset < chunk && FLASH_BASE <= at && at + chunk <= FLASH_BASE + FLASH_SIZE
    ensures (at + offset) % 4 == 0 && InFlash(at + offset, 4) && offset + 4 <= Ceil4(chunk)
    ensures (offset + 4) % 4 == 0
  {}

  lemma CellsStep(d: Device, at: int, offset: nat, remain: nat, chunk: nat, buffer: seq<byte>)
    requires d.Shaped() && (InFlash(at, Ceil4(chunk)) || InOption(at, Ceil4(chunk)))
    requires offset % 4 == 0 && 0 < remain <= 4 && offset + remain <= chunk <= |buffer|
    requires Cells(d, at, offset) == buffer[..offset]
    ensures at + offset != SR && AfterRead(d, at + offset) == d
    ensures LowBytes(ReadBus(d, at + offset, 4), 4)[..remain] == buffer[offset..offset + remain]
      <==> Cells(d, at, offset + remain) == buffer[..offset + remain]
    ensures Cells(d, at, chunk) == buffer[..chunk] ==> Cells(d, at, offset + remain) == buffer[..offset + remain]
  {
    hide Cells, ReadBus, AfterRead, LowBytes;
    WordCells(d, at, offset, chunk);
    WordsFit(offset, chunk);
    CellsConcat(d, at, offset, remain);
    CellsConcat(d, at + offset, remain, 4 - remain);
    CellsConcat(d, at, offset + remain, chunk - offset - remain);
    SameStart(Cells(d, at, offset), Cells(d, at + offset, remain), buffer, offset, remain);
    Prefix(Cells(d, at + offset, remain), Cells(d, at + offset + remain, 4 - remain));
    Prefix(Cells(d, at, offset + remain), Cells(d, at + offset + remain, chunk - offset - remain));
    assert buffer[..chunk][..offset + remain] == buffer[..offset + remain];
  }

  lemma VerifyWord(at: int, chunk: nat, offset: nat)
    requires at % 4 == 0 && offset % 4 == 0 && offset < chunk && (InFlash(at, Ceil4(chunk)) || InOption(at, Ceil4(chunk)))
    ensures (at + offset) % 4 == 0 && Mapped(at + offset, 4) && 0 <= at + offset < 0x1_0000_0000
    ensures (offset + 4) % 4 == 0
  {
    WordsFit(offset, chunk);
    MappedMemory(at + offset, 4);
  }

  lemma WordCells(d: Device, at: int, offset: nat, chunk: nat)
    requires d.Shaped() && (InFlash(at, Ceil4(chunk)) || InOption(at, Ceil4(chunk))) && offset % 4 == 0 && offset < chunk
    ensures at + offset != SR && AfterRead(d, at + offset) == d
    ensures InFlash(at + offset, 4) || InOption(at + offset, 4)
    ensures LowBytes(ReadBus(d, at + offset, 4), 4) == Cells(d, at + offset, 4)
  {}

  lemma Prefix<T>(a: seq<T>, b: seq<T>)
    ensures (a + b)[..|a|] == a
  {}

  /** Two sequences that agree on a beginning agree further on exactly when what follows agrees. */
  lemma SameStart<T>(a: seq<T>, b: seq<T>, s: seq<T>, n: nat, m: nat)
    requires n + m <= |s| && |a| == n && |b| == m && a == s[..n]
    ensures b == s[n..n + m] <==> a + b == s[..n + m]
  {
    assert s[..n + m] == s[..n] + s[n..n + m];
    assert (a + b)[n..] == b;
  }

  lemma CellsConcat(d: Device, at: int, a: nat, b: nat)
    requires d.Shaped() && (InFlash(at, a + b) || InOption(at, a + b))
    ensures (InFlash(at, a) || InOption(at, a)) && (InFlash(at + a, b) || InOption(at + a, b))
    ensures Cells(d, at, a + b) == Cells(d, at, a) + Cells(d, at + a, b)
    ensures |Cells(d, at, a)| == a && |Cells(d, at + a, b)| == b
  {}

  /** Verifying one more chunk. */
  lemma CellsSplit(d: Device, at: int, done: nat, chunk: nat, size: nat, payload: seq<byte>)
    requires d.Shaped() && (InFlash(at, size) || InOption(at, size)) && |payload| == size && done + chunk <= size
    requires Cells(d, at, done) == payload[..done]
    ensures Cells(d, at + done, chunk) == payload[done..done + chunk] ==> Cells(d, at, done + chunk) == payload[..done + chunk]
    ensures Cells(d, at, size) == payload ==> Cells(d, at + done, chunk) == payload[done..done + chunk]
  {
    hide Cells;
    CellsConcat(d, at, done, size - done);
    CellsConcat(d, at + done, chunk, size - done - chunk);
    CellsConcat(d, at, done, chunk);
    SameStart(Cells(d, at, done), Cells(d, at + done, chunk), payload, done, chunk);
    Prefix(Cells(d, at + done, chunk), Cells(d, at + done + chunk, size - done - chunk));
    SameStart(Cells(d, at, done), Cells(d, at + done, size - done), payload, done, size - done);
    assert payload[..size] == payload;
    assert payload[done..size][..chunk] == payload[done..done + chunk];
  }

  lemma SectorAligned(at: int)
    requires at % SECTOR_SIZE == 0
    ensures SectorStart(at) == at - FLASH_BASE
  {}

  lemma StartAsked(d: Device)
    ensures Asked(d, ZERO_WORD, STRT) == d.Cr().(strt := true)
  {
    hide View, Merge;
    ControlMasks();
    MergeStart(d.Cr());
  }

  /** The start bit, sent in an erase mode, erases what the mode and address say. */
  lemma EraseStarted(d: Device, mode: Word, d': Device, fates: nat -> Fate)
    requires mode == SER || mode == OPTER
    requires !d.Cr().lock ==> d.Cr() == EraseMode(mode).(strt := d.Cr().strt, optwre := d.Cr().optwre)
    requires Written(d, CR, 4, Change(d.cr, ZERO_WORD, STRT), d', fates)
    ensures d'.ar == d.ar && KeptByErase(d, d', mode, d.ar)
    ensures SoundBus(fates) && d.Cr() == EraseMode(mode) && d.busy == 0 ==>
      && d'.pgErr == d.pgErr && d'.wrpErr == d.wrpErr && (exists t: nat :: d'.busy == fates(t).delay)
      && d'.Cr() == EraseMode(mode).(strt := d'.Cr().strt)
      && d'.flash == (if mode == SER then Erase(d.flash, SectorStart(d.ar), SectorStart(d.ar) + SECTOR_SIZE) else d.flash)
      && d'.option == (if mode == OPTER then Erase(d.option, 0, OPTION_SIZE) else d.option)
  {
    hide View, Written, Change, Merge, SectorStart, Erase, Asked;
    StartAsked(d);
    ControlCells(d, ZERO_WORD, STRT, d', fates);
    ControlBitsAfter(d, ZERO_WORD, STRT, d', fates);
    if SoundBus(fates) {
      ControlSound(d, ZERO_WORD, STRT, d', fates);
    }
  }

  /** Clearing mode and start bits moves nothing. */
  lemma EraseModeCleared(d: Device, d': Device, fates: nat -> Fate)
    requires Written(d, CR, 4, Change(d.cr, ERASE_AND_STRT, ZERO_WORD), d', fates)
    ensures SameCells(d, d')
    ensures SoundBus(fates) ==> SameStatus(d, d')
    ensures !d.Cr().lock ==> !d'.Cr().strt && !d'.Cr().lock && d'.Cr().optwre == d.Cr().optwre
  {
    hide View, Written, Change, SectorStart, Erase;
    ControlMasks();
    WideMasks();
    ControlCells(d, ERASE_AND_STRT, ZERO_WORD, d', fates);
    ControlBitsAfter(d, ERASE_AND_STRT, ZERO_WORD, d', fates);
    if SoundBus(fates) {
      ControlSound(d, ERASE_AND_STRT, ZERO_WORD, d', fates);
    }
  }

  lemma WrittenKeeps(d: Device, addr: int, n: nat, w: Word, d': Device, fates: nat -> Fate)
    requires Written(d, addr, n, w, d', fates)
    ensures d'.id == d.id && d'.Shaped()
  {
    hide IdealWrite, CrAfter, ArAfter, TouchesFlash, TouchesOption;
  }
}
