/** The host side of the debug link: SWD transfers with retries, two register caches,
    DMI access through the access port, and memory access through the system bus. */
module McuDebug {
  import opened Errors
  import opened Bytes
  import opened FlashDevice
  import opened DebugModule
  import opened SystemBus

  /** What the link can change on the target, apart from bookkeeping in the debug port. */
  datatype Core = Core(csw: Word, tar: u32, dm: Dm) {
    predicate Stationary() { !ToBits(csw.b0).x4 && !ToBits(csw.b0).x5 }
  }

  function CoreOf(d: Dap): Core { Core(d.csw, d.tar, d.dm) }

  function TarNext(c: Core): u32 { if c.Stationary() then c.tar else (c.tar + 4) % 0x1_0000_0000 }

  function CoreAfterWrite(c: Core, address: int, w: Word): Core
    requires c.dm.dev.Shaped()
  {
    if address == AP_CSW then c.(csw := w)
    else if address == AP_TAR then c.(tar := FromWord(w))
    else if address == AP_DRW then c.(dm := DmiWrite(c.dm, c.tar / 4, w), tar := TarNext(c))
    else c
  }

  function CoreReadValue(c: Core, address: int, idr: Word): Word {
    if address == AP_CSW then c.csw
    else if address == AP_TAR then ToWord(c.tar)
    else if address == AP_DRW then DmiReadValue(c.dm, c.tar / 4)
    else if address == AP_IDR then idr
    else ZERO_WORD
  }

  function CoreAfterRead(c: Core, address: int): Core
    requires c.dm.dev.Shaped()
  {
    if address == AP_DRW then c.(dm := DmiAfterRead(c.dm, c.tar / 4), tar := TarNext(c)) else c
  }

  const UNKNOWN: u32 := 0xffff_ffff
  const WAIT_RETRIES: nat := 64

  /** A wire on which no transfer is disturbed. */
  ghost predicate CleanLine(line: nat -> LineFate) {
    forall t :: line(t) == LineFate(AckOk, false, false, line(t).unseen, true)
  }

  lemma ApWriteIsCore(d: Dap, address: int, w: Word)
    requires d.dm.dev.Shaped() && 0 <= address < 0x100 && d.select == Bank(address)
    ensures CoreOf(ApAfterWrite(d, Low(address), w)) == CoreAfterWrite(CoreOf(d), address, w)
  {
    hide DmiWrite, FromWord, ToBits;
  }

  lemma ApReadIsCore(d: Dap, address: int)
    requires d.dm.dev.Shaped() && 0 <= address < 0x100 && d.select == Bank(address)
    ensures CoreOf(ApAfterRead(d, Low(address))) == CoreAfterRead(CoreOf(d), address)
    ensures ApAfterRead(d, Low(address)).posted == CoreReadValue(CoreOf(d), address, d.idr)
  {
    hide DmiAfterRead, DmiReadValue, ToWord, ToBits;
  }

  /** What no transfer changes. */
  ghost predicate SameWire(d: Dap, d': Dap) {
    d'.idcode == d.idcode && d'.idr == d.idr && d'.line == d.line
  }

  class Link {
    var dpSelect: u32
    var apTar: u32
    var apCswBase: Word
    var sessionActive: bool
    var dap: Dap

    constructor (dap: Dap)
      ensures this.dap == dap && !sessionActive && dpSelect == apTar == UNKNOWN
    {
      this.dap := dap;
      dpSelect, apTar, sessionActive := UNKNOWN, UNKNOWN, false;
    }

    /** The SELECT cache is right whenever anything can get through to the access port. */
    ghost predicate Valid()
      reads this
    {
      dap.dm.dev.Shaped() && dap.select < 0x100 && (dap.sticky || dpSelect == UNKNOWN || dpSelect == dap.select)
    }

    method SwdTransfer(ap: bool, read: bool, reg: int, value: Word) returns (err: Error, data: Word, ghost at: nat)
      requires dap.dm.dev.Shaped()
      modifies this`dap
      ensures old(dap).ticks <= at < old(dap).ticks + WAIT_RETRIES
      ensures old(dap).ticks < dap.ticks <= old(dap).ticks + WAIT_RETRIES
      ensures err == Timeout ==> dap == old(dap).(ticks := old(dap).ticks + 64)
      ensures err != Timeout ==>
        Transfer(old(dap).(ticks := at), ap, read, reg, value) == (SwdErrorOf(err), data, dap)
      ensures err == NoError || err == Timeout || err == InvalidResponse || err == InvalidCrc
      ensures Transfer(old(dap), ap, read, reg, value).0 != SwdTimeout ==> err != Timeout && at == old(dap).ticks
      ensures CleanLine(dap.line) && !Blocked(old(dap), ap, read, reg) ==> err == NoError
    {
      hide ApAfterRead, ApAfterWrite, DpAfterWrite, DpReadValue, Device.Shaped;
      data := ZERO_WORD;
      at := dap.ticks;
      var attempt := 0;
      while attempt < WAIT_RETRIES
        invariant 0 <= attempt <= WAIT_RETRIES
        invariant dap == old(dap).(ticks := old(dap).ticks + attempt)
        invariant attempt > 0 ==> !CleanLine(dap.line) && Transfer(old(dap), ap, read, reg, value).0 == SwdTimeout
        invariant at == old(dap).ticks
      {
        ghost var t := dap.ticks;
        var (e, v, d) := Transfer(dap, ap, read, reg, value);
        TransferTicks(dap, ap, read, reg, value);
        dap := d;
        if e != SwdTimeout {
          at := t;
          data := v;
          err := match e case SwdOk => NoError case SwdInvalidCrc => InvalidCrc case _ => InvalidResponse;
          return;
        }
        attempt := attempt + 1;
      }
      err := Timeout;
    }

    method ApSelect(address: int) returns (err: Error)
      requires Valid() && 0 <= address < 0x100
      modifies this`dap, this`dpSelect
      ensures Valid() && SameWire(old(dap), dap)
      ensures CoreOf(dap) == CoreOf(old(dap))
      ensures old(dap).ticks <= dap.ticks <= old(dap).ticks + 64
      ensures err == NoError ==> dpSelect == Bank(address)
      ensures old(dpSelect) == Bank(address) ==> err == NoError && dap == old(dap)
      ensures old(dap).sticky ==> dap.sticky && CoreOf(dap) == CoreOf(old(dap))
      ensures CleanLine(dap.line) && !old(dap).sticky ==> err == NoError && !dap.sticky
    {
      hide Transfer, Blocked, CoreOf, Device.Shaped, ToWord, FromWord;
      var select := Bank(address);
      if select == dpSelect {
        return NoError;
      }
      ghost var data, at;
      err, data, at := SwdTransfer(false, false, DP_SELECT, ToWord(select));
      SelectTransfer(old(dap).(ticks := at), select);
      Unblocked(old(dap));
      CoreIgnoresTicks(old(dap), at);
      CoreIgnoresTicks(old(dap), dap.ticks);
      if err == NoError {
        dpSelect := select;
      }
    }

    /** The bank is selected, known to be, and not blocked. */
    predicate Open(address: int)
      reads this`dap, this`dpSelect
    {
      !dap.sticky && dpSelect == Bank(address) == dap.select
    }

    /** A register write: performed when this returns without error; with an error it was
        either performed or not. */
    method ApWrite(address: int, value: Word) returns (err: Error)
      requires Valid() && 0 <= address < 0x100
      modifies this`dap, this`dpSelect
      ensures Valid() && SameWire(old(dap), dap)
      ensures old(dap).ticks <= dap.ticks <= old(dap).ticks + 192
      ensures err == NoError ==> !dap.sticky && CoreOf(dap) == CoreAfterWrite(CoreOf(old(dap)), address, value)
      ensures CoreOf(dap) == CoreOf(old(dap)) || CoreOf(dap) == CoreAfterWrite(CoreOf(old(dap)), address, value)
      ensures old(dap).sticky ==> dap.sticky && CoreOf(dap) == CoreOf(old(dap))
      ensures CleanLine(dap.line) && !old(dap).sticky ==> err == NoError
      ensures old(Open(address)) && Heard(old(dap)) ==>
        && CoreOf(dap) == CoreAfterWrite(CoreOf(old(dap)), address, value) && Open(address)
        && dap.ticks == old(dap).ticks + 2 && (err == NoError <==> !dap.line(old(dap).ticks + 1).badParity)
    {
      hide Transfer, Blocked, CoreOf, CoreAfterWrite, ApAfterWrite, Device.Shaped, Heard;
      HeardWrite(dap, address, value);
      err := ApSelect(address);
      ghost var at, data;
      if err == NoError {
        ghost var d := dap;
        err, data, at := SwdTransfer(true, false, Low(address), value);
        WriteTransfer(d.(ticks := at), Low(address), value);
        Unblocked(d);
        CoreIgnoresTicks(d, at);
        CoreIgnoresTicks(d, dap.ticks);
        if d.select == Bank(address) {
          ApWriteIsCore(d.(ticks := at), address, value);
        }
      }
      if err == NoError {
        ghost var d := dap;
        err, data, at := SwdTransfer(false, true, DP_RDBUFF, ZERO_WORD);
        BufferTransfer(d.(ticks := at));
        Unblocked(d);
        CoreIgnoresTicks(d, at);
        CoreIgnoresTicks(d, dap.ticks);
      }
    }

    method ApRead(address: int) returns (err: Error, value: Word)
      requires Valid() && 0 <= address < 0x100
      modifies this`dap, this`dpSelect
      ensures Valid() && SameWire(old(dap), dap)
      ensures old(dap).ticks <= dap.ticks <= old(dap).ticks + 192
      ensures err == NoError ==> !dap.sticky && CoreOf(dap) == CoreAfterRead(CoreOf(old(dap)), address)
      ensures err == NoError ==> value == CoreReadValue(CoreOf(old(dap)), address, dap.idr)
      ensures CoreOf(dap) == CoreOf(old(dap)) || CoreOf(dap) == CoreAfterRead(CoreOf(old(dap)), address)
      ensures old(dap).sticky ==> dap.sticky && CoreOf(dap) == CoreOf(old(dap))
      ensures CleanLine(dap.line) && !old(dap).sticky ==> err == NoError
    {
      hide Transfer, Blocked, CoreOf, CoreAfterRead, CoreReadValue, ApAfterRead, Device.Shaped;
      value := ZERO_WORD;
      err := ApSelect(address);
      if err == NoError {
        ghost var d := dap;
        var posted: Word;
        ghost var at;
        err, posted, at := SwdTransfer(true, true, Low(address), ZERO_WORD);
        ReadTransfer(d.(ticks := at), Low(address));
        Unblocked(d);
        CoreIgnoresTicks(d, at);
        CoreIgnoresTicks(d, dap.ticks);
        if d.select == Bank(address) {
          ApReadIsCore(d.(ticks := at), address);
        }
      }
      if err == NoError {
        ghost var d := dap;
        ghost var at;
        err, value, at := SwdTransfer(false, true, DP_RDBUFF, ZERO_WORD);
        BufferTransfer(d.(ticks := at));
        Unblocked(d);
        CoreIgnoresTicks(d, at);
        CoreIgnoresTicks(d, dap.ticks);
      }
    }

    /** The TAR cache is right, and TAR does not move by itself. */
    ghost predicate Coherent()
      reads this
    {
      Valid() && CoreOf(dap).Stationary() && (dap.sticky || apTar == UNKNOWN || apTar == dap.tar)
    }

    /** An access to this register reaches it: the TAR cache is right, or names another one. */
    ghost predicate OnTarget(reg: int)
      requires 0 <= reg < 0x80
      reads this
    {
      && Valid() && CoreOf(dap).Stationary()
      && (dap.sticky || apTar == UNKNOWN || apTar == dap.tar || apTar != 4 * reg)
    }

    method DmiSetAddress(reg: int) returns (err: Error)
      requires Valid() && 0 <= reg < 0x80
      modifies this`dap, this`dpSelect, this`apTar
      ensures Valid() && SameWire(old(dap), dap) && (old(dap).sticky ==> dap.sticky)
      ensures old(dap).ticks <= dap.ticks <= old(dap).ticks + 192
      ensures err == NoError ==> apTar == 4 * reg
      ensures err == NoError ==> CoreOf(dap) == CoreOf(old(dap)).(tar := Reached(old(apTar), old(dap).tar, reg))
      ensures err == NoError && old(apTar) != 4 * reg ==> !dap.sticky
      ensures err != NoError ==> apTar == old(apTar) && apTar != 4 * reg
      ensures CoreOf(dap) == CoreOf(old(dap)) || CoreOf(dap) == CoreOf(old(dap)).(tar := 4 * reg)
      ensures old(dap).sticky ==> CoreOf(dap) == CoreOf(old(dap))
      ensures CleanLine(dap.line) && !old(dap).sticky ==> err == NoError && !dap.sticky
      ensures old(apTar) == 4 * reg ==> err == NoError && dap == old(dap) && dpSelect == old(dpSelect)
      ensures old(apTar) != 4 * reg && old(Open(AP_TAR)) && Heard(old(dap)) ==>
        && dap.tar == 4 * reg && Open(AP_TAR) && dap.ticks == old(dap).ticks + 2
        && (err == NoError <==> !dap.line(old(dap).ticks + 1).badParity)
    {
      hide Device.Shaped, ToWord, FromWord, DmiWrite, ToBits, Heard;
      var tar := 4 * reg;
      if tar == apTar {
        return NoError;
      }
      err := ApWrite(AP_TAR, ToWord(tar));
      WordRoundTrip(tar);
      if err == NoError {
        apTar := tar;
      }
    }

    /** A debug module register write. Without error it happened once, at the register the
        TAR cache and the target's TAR together select. */
    method DmiWriteRegister(reg: int, value: Word) returns (err: Error)
      requires Valid() && 0 <= reg < 0x80
      modifies this`dap, this`dpSelect, this`apTar
      ensures Valid() && SameWire(old(dap), dap) && (old(dap).sticky ==> dap.sticky)
      ensures old(dap).ticks <= dap.ticks <= old(dap).ticks + DMI_COST
      ensures err == NoError ==> !dap.sticky && apTar == 4 * reg
      ensures err == NoError ==> CoreOf(dap) == CoreAfterWrite(Aimed(old(apTar), CoreOf(old(dap)), reg), AP_DRW, value)
      ensures apTar == old(apTar) || (apTar == 4 * reg && !old(dap).sticky)
      ensures AccessStep(old(apTar), CoreOf(old(dap)), reg, err == NoError, apTar, CoreOf(dap),
                         CoreAfterWrite(Aimed(old(apTar), CoreOf(old(dap)), reg), AP_DRW, value))
      ensures apTar != old(apTar) && CoreOf(old(dap)).Stationary() ==> dap.tar == 4 * reg
      ensures old(OnTarget(reg)) && err == NoError ==> Coherent() && dap.dm == DmiWrite(old(dap).dm, reg, value)
      ensures old(OnTarget(reg)) && apTar == 4 * reg ==> Coherent()
      ensures old(Coherent()) ==>
        Coherent() || (err != NoError && apTar == old(apTar) && apTar != 4 * reg && dap.tar == 4 * reg)
      ensures old(OnTarget(reg)) ==> dap.dm == old(dap).dm || dap.dm == DmiWrite(old(dap).dm, reg, value)
      ensures old(OnTarget(reg)) ==> CoreOf(dap).Stationary() && (dap.tar == old(dap).tar || dap.tar == 4 * reg)
      ensures old(apTar) != 4 * reg && old(Open(AP_TAR)) && Heard(old(dap)) && dap.line(old(dap).ticks + 1).badParity ==>
        && err != NoError && apTar == old(apTar) && CoreOf(dap) == CoreOf(old(dap)).(tar := 4 * reg)
        && Open(AP_TAR) && dap.ticks == old(dap).ticks + 2
      ensures old(apTar) == 4 * reg && old(Open(AP_DRW)) && Heard(old(dap)) && !dap.line(old(dap).ticks + 1).badParity ==>
        err == NoError
      ensures CleanLine(dap.line) && !old(dap).sticky ==> err == NoError
    {
      hide CoreAfterWrite, Device.Shaped, DmiWrite, ToBits, Heard;
      err := DmiSetAddress(reg);
      ghost var aimed := CoreOf(dap);
      if err == NoError {
        err := ApWrite(AP_DRW, value);
      }
      AccessKeepsTar(aimed, value);
      AccessInCore(aimed, value);
    }

    method DmiReadRegister(reg: int) returns (err: Error, value: Word)
      requires Valid() && 0 <= reg < 0x80
      modifies this`dap, this`dpSelect, this`apTar
      ensures Valid() && SameWire(old(dap), dap) && (old(dap).sticky ==> dap.sticky)
      ensures old(dap).ticks <= dap.ticks <= old(dap).ticks + DMI_COST
      ensures err == NoError ==> !dap.sticky && apTar == 4 * reg
      ensures err == NoError ==> CoreOf(dap) == CoreAfterRead(Aimed(old(apTar), CoreOf(old(dap)), reg), AP_DRW)
      ensures err == NoError ==>
        value == DmiReadValue(old(dap).dm, Reached(old(apTar), old(dap).tar, reg) / 4)
      ensures apTar == old(apTar) || (apTar == 4 * reg && !old(dap).sticky)
      ensures AccessStep(old(apTar), CoreOf(old(dap)), reg, err == NoError, apTar, CoreOf(dap),
                         CoreAfterRead(Aimed(old(apTar), CoreOf(old(dap)), reg), AP_DRW))
      ensures apTar != old(apTar) && CoreOf(old(dap)).Stationary() ==> dap.tar == 4 * reg
      ensures old(OnTarget(reg)) && err == NoError ==> Coherent() && dap.dm == DmiAfterRead(old(dap).dm, reg)
      ensures old(OnTarget(reg)) && apTar == 4 * reg ==> Coherent()
      ensures old(Coherent()) ==>
        Coherent() || (err != NoError && apTar == old(apTar) && apTar != 4 * reg && dap.tar == 4 * reg)
      ensures old(OnTarget(reg)) ==> dap.dm == old(dap).dm || dap.dm == DmiAfterRead(old(dap).dm, reg)
      ensures old(OnTarget(reg)) ==> CoreOf(dap).Stationary() && (dap.tar == old(dap).tar || dap.tar == 4 * reg)
      ensures old(OnTarget(reg)) && err == NoError ==> value == DmiReadValue(old(dap).dm, reg)
      ensures CleanLine(dap.line) && !old(dap).sticky ==> err == NoError
    {
      hide CoreAfterRead, Device.Shaped, DmiReadValue, DmiAfterRead, ToBits;
      value := ZERO_WORD;
      err := DmiSetAddress(reg);
      ghost var aimed := CoreOf(dap);
      if err == NoError {
        err, value := ApRead(AP_DRW);
      }
      AccessKeepsTar(aimed, ZERO_WORD);
      AccessInCore(aimed, ZERO_WORD);
    }

    /** No transfer is disturbed, no bus access fails or overstays, none is overdue. */
    ghost predicate Prompt()
      reads this
    {
      Coherent() && !dap.sticky && CleanLine(dap.line) && CleanBus(dap.dm.fates) && dap.dm.sb.busy < SB_WAIT_LIMIT
    }

    // ---- system bus -----------------------------------------------------------------------

    method SbWait() returns (err: Error, status: Word)
      requires Valid()
      modifies this`dap, this`dpSelect, this`apTar
      ensures Valid() && SameWire(old(dap), dap) && (old(dap).sticky ==> dap.sticky)
      ensures old(dap).ticks <= dap.ticks <= old(dap).ticks + SB_WAIT_COST
      ensures apTar == old(apTar) || apTar == 4 * SBCS
      ensures old(Coherent()) ==> Waited(old(dap).dm, dap.dm) && CoreOf(dap).Stationary()
      ensures old(Coherent()) && err == NoError ==>
        Coherent() && dap.dm.sb.busy == 0 && (SbFailed(status) <==> dap.dm.sb.error || dap.dm.sb.busyError)
      ensures old(Prompt()) ==> err == NoError && Prompt()
    {
      hide DmiAfterRead, DmiReadValue, SbStatus, SbBusy, SbFailed, Device.Shaped, CoreAfterRead, Reached, AccessStep, ToBits, Core.Stationary;
      status := ZERO_WORD;
      var attempt := 0;
      while attempt < SB_WAIT_LIMIT
        invariant 0 <= attempt <= SB_WAIT_LIMIT
        invariant Valid() && SameWire(old(dap), dap) && (old(dap).sticky ==> dap.sticky)
        invariant old(dap).ticks <= dap.ticks <= old(dap).ticks + attempt * DMI_COST
        invariant apTar == old(apTar) || apTar == 4 * SBCS
        invariant old(Coherent()) ==> Waited(old(dap).dm, dap.dm) && Coherent()
        invariant old(Prompt()) ==> Prompt() && dap.dm.sb.busy < SB_WAIT_LIMIT - attempt
      {
        ghost var m := dap.dm;
        err, status := DmiReadRegister(SBCS);
        PollStatus(m);
        StatusBits(m.sb);
        if err != NoError {
          return;
        }
        if !SbBusy(status) {
          return;
        }
        attempt := attempt + 1;
      }
      err := Timeout;
    }

    method SbFinish() returns (err: Error)
      requires Valid()
      modifies this`dap, this`dpSelect, this`apTar
      ensures Valid() && SameWire(old(dap), dap) && (old(dap).sticky ==> dap.sticky)
      ensures old(dap).ticks <= dap.ticks <= old(dap).ticks + SB_WAIT_COST
      ensures apTar == old(apTar) || apTar == 4 * SBCS
      ensures old(Coherent()) ==> Waited(old(dap).dm, dap.dm) && CoreOf(dap).Stationary()
      ensures old(Coherent()) && err == NoError ==>
        Coherent() && dap.dm.sb.busy == 0 && !dap.dm.sb.error && !dap.dm.sb.busyError
      ensures old(Prompt()) && !old(dap).dm.sb.error && !old(dap).dm.sb.busyError ==> err == NoError && Prompt()
    {
      hide SbFailed, Device.Shaped, ToBits, Core.Stationary;
      var status;
      err, status := SbWait();
      if err == NoError && SbFailed(status) {
        err := InvalidResponse;
      }
    }

    /** Writes 4 or 2 bytes. Without error the target performed exactly this bus write, once;
        with an error, it performed it or nothing. */
    method WriteMemory(address: u32, n: nat, value: Word) returns (err: Error)
      requires Valid() && IsWidth(n)
      modifies this`dap, this`dpSelect, this`apTar
      ensures Valid() && SameWire(old(dap), dap) && (old(dap).sticky ==> dap.sticky)
      ensures old(dap).ticks <= dap.ticks <= old(dap).ticks + MEMORY_COST
      ensures !old(sessionActive) || address % n != 0 ==> err == InvalidArg && dap == old(dap)
      ensures old(apTar) != 4 * DMCONTROL ==> apTar != 4 * DMCONTROL
      ensures old(Coherent()) ==> HartUntouched(old(dap).dm, dap.dm) && CoreOf(dap).Stationary()
      ensures old(Coherent()) ==>
        dap.dm.dev == old(dap).dm.dev || Written(old(dap).dm.dev, address, n, value, dap.dm.dev, dap.dm.fates)
      ensures old(Coherent()) && err == NoError ==>
        Coherent() && Written(old(dap).dm.dev, address, n, value, dap.dm.dev, dap.dm.fates)
      ensures old(Prompt()) && sessionActive && address % n == 0 && Mapped(address, n) ==> err == NoError && Prompt()
    {
      hide DmiWrite, ConfigWord, ActualWrite, Written, Mapped, Device.Shaped, CoreAfterWrite, Reached, AccessStep, ToBits, ToWord, Core.Stationary, IdealWrite;
      if !sessionActive || address % n != 0 {
        return InvalidArg;
      }
      var status;
      err, status := SbWait();
      ghost var m := dap.dm;
      if err == NoError {
        err := DmiWriteRegister(SBCS, ConfigWord(false, n));
      }
      if old(Coherent()) && m.sb.busy == 0 {
        WriteSequence(m, address, n, value);
        ConfiguredIs(m, false, n);
        WriteOutcome(m, address, n, value);
      }
      if err == NoError {
        err := DmiWriteRegister(SBADDRESS0, ToWord(address));
      }
      if err == NoError {
        err := DmiWriteRegister(SBDATA0, value);
      }
      if err == NoError {
        err := SbFinish();
      }
    }

    method ReadMemory(address: u32, n: nat) returns (err: Error, value: Word)
      requires Valid() && IsWidth(n)
      modifies this`dap, this`dpSelect, this`apTar
      ensures Valid() && SameWire(old(dap), dap) && (old(dap).sticky ==> dap.sticky)
      ensures old(dap).ticks <= dap.ticks <= old(dap).ticks + MEMORY_COST
      ensures !old(sessionActive) || address % n != 0 ==> err == InvalidArg && dap == old(dap)
      ensures old(apTar) != 4 * DMCONTROL ==> apTar != 4 * DMCONTROL
      ensures old(Coherent()) ==> HartUntouched(old(dap).dm, dap.dm) && CoreOf(dap).Stationary()
      ensures old(Coherent()) ==>
        dap.dm.dev == old(dap).dm.dev || dap.dm.dev == AfterRead(old(dap).dm.dev, address)
      ensures old(Coherent()) && err == NoError ==>
        Coherent() && dap.dm.dev == AfterRead(old(dap).dm.dev, address) && value == ReadBus(old(dap).dm.dev, address, n)
      ensures old(Prompt()) && sessionActive && address % n == 0 && Mapped(address, n) ==> err == NoError && Prompt()
    {
      hide DmiWrite, DmiAfterRead, DmiReadValue, ConfigWord, ReadBus, AfterRead, Mapped, Device.Shaped, CoreAfterWrite, CoreAfterRead, Reached, AccessStep, ToBits, ToWord, Core.Stationary;
      value := ZERO_WORD;
      if !sessionActive || address % n != 0 {
        return InvalidArg, value;
      }
      var status;
      err, status := SbWait();
      ghost var m := dap.dm;
      if err == NoError {
        err := DmiWriteRegister(SBCS, ConfigWord(true, n));
      }
      if old(Coherent()) && m.sb.busy == 0 {
        ReadSequence(m, address, n);
        ConfiguredIs(m, true, n);
        if CleanBus(m.fates) {
          FateIsClean(m, m.clock + 1);
        }
      }
      if err == NoError {
        err := DmiWriteRegister(SBADDRESS0, ToWord(address));
      }
      if err == NoError {
        err := SbFinish();
      }
      ghost var f := dap.dm;
      if err == NoError {
        if old(Coherent()) {
          FetchData(f);
        }
        err, value := DmiReadRegister(SBDATA0);
      }
    }

    // ---- hart control ---------------------------------------------------------------------

    /** Good enough to call Resume: its first write reaches the control register, or lands
        on the status register, where writes do nothing. */
    ghost predicate Recoverable()
      reads this
    {
      && Valid() && CoreOf(dap).Stationary()
      && (OnTarget(DMCONTROL) || dap.tar == 4 * DMSTATUS)
    }

    method WaitDmStatus(wanted: Wanted) returns (err: Error)
      requires Valid()
      modifies this`dap, this`dpSelect, this`apTar
      ensures Valid() && SameWire(old(dap), dap) && (old(dap).sticky ==> dap.sticky)
      ensures old(dap).ticks <= dap.ticks <= old(dap).ticks + DM_WAIT_COST
      ensures apTar == old(apTar) || apTar == 4 * DMSTATUS
      ensures err == NoError ==> apTar == 4 * DMSTATUS
      ensures old(OnTarget(DMSTATUS)) ==> HartOnly(old(dap).dm, dap.dm) && CoreOf(dap).Stationary()
      ensures old(OnTarget(DMSTATUS)) ==> dap.tar == old(dap).tar || dap.tar == 4 * DMSTATUS
      ensures old(OnTarget(DMSTATUS)) && err == NoError ==> Coherent() && Met(dap.dm, wanted)
      ensures old(OnTarget(DMSTATUS)) && old(dap).dm.request != ToHalt ==> dap.dm.request != ToHalt
      ensures old(Prompt()) && Due(old(dap).dm, wanted) ==> err == NoError && Prompt()
      ensures old(Prompt()) && Due(old(dap).dm, wanted) && old(dap).dm.request == ToRun ==> Going(dap.dm) || dap.dm.request == ToRun
    {
      hide DmiAfterRead, DmiReadValue, Device.Shaped, CoreAfterRead, Reached, AccessStep, ToBits, Core.Stationary, HartSettle, Shows, CleanBus;
      var attempt := 0;
      while attempt < DM_WAIT_LIMIT
        invariant 0 <= attempt <= DM_WAIT_LIMIT
        invariant Valid() && SameWire(old(dap), dap) && (old(dap).sticky ==> dap.sticky)
        invariant old(dap).ticks <= dap.ticks <= old(dap).ticks + attempt * DMI_COST
        invariant apTar == old(apTar) || apTar == 4 * DMSTATUS
        invariant old(OnTarget(DMSTATUS)) ==> HartOnly(old(dap).dm, dap.dm) && OnTarget(DMSTATUS)
        invariant old(OnTarget(DMSTATUS)) ==> dap.tar == old(dap).tar || dap.tar == 4 * DMSTATUS
        invariant old(OnTarget(DMSTATUS)) && old(dap).dm.request != ToHalt ==> dap.dm.request != ToHalt
        invariant old(Prompt()) && Due(old(dap).dm, wanted) ==>
          && Prompt() && Due(dap.dm, wanted) && dap.dm.request == old(dap).dm.request && dap.dm.fates == old(dap).dm.fates
          && dap.dm.clock == old(dap).dm.clock + attempt && !HartBy(dap.dm.fates, old(dap).dm.clock, dap.dm.clock)
      {
        ghost var m := dap.dm;
        var status;
        err, status := DmiReadRegister(DMSTATUS);
        PollHart(m, wanted);
        LaterHart(m, old(dap).dm.clock);
        if err != NoError {
          return;
        }
        if Shows(status, wanted) {
          return;
        }
        attempt := attempt + 1;
      }
      HartInTime(dap.dm.fates, old(dap).dm.clock);
      err := Timeout;
    }

    /** Stops the core. Memory and bus stay as they are whatever happens. */
    method Halt() returns (err: Error)
      requires Valid()
      modifies this`dap, this`dpSelect, this`apTar
      ensures Valid() && SameWire(old(dap), dap) && (old(dap).sticky ==> dap.sticky)
      ensures old(dap).ticks <= dap.ticks <= old(dap).ticks + HART_COST
      ensures !sessionActive ==> err == InvalidState && dap == old(dap)
      ensures old(Coherent()) ==> HartOnly(old(dap).dm, dap.dm) && Recoverable()
      ensures old(Coherent()) && err == NoError ==> Coherent() && dap.dm.hart == Halted && apTar == 4 * DMSTATUS
      ensures old(Prompt()) && sessionActive ==> err == NoError && Prompt()
    {
      hide DmiWrite, DmiAfterRead, DmiReadValue, Device.Shaped, CoreAfterWrite, CoreAfterRead, Reached, AccessStep, ToBits, Core.Stationary, HartSettle;
      if !sessionActive {
        return InvalidState;
      }
      ghost var m := dap.dm;
      var before;
      err, before := DmiReadRegister(DMSTATUS);
      PollHart(m, WantHalted);
      if err != NoError {
        return;
      }
      m := dap.dm;
      err := DmiWriteRegister(DMCONTROL, HALT_REQUEST);
      ControlWrite(m);
      if err == NoError {
        err := WaitDmStatus(WantHalted);
      }
    }

    /** Lets the core go. Success is real even after an earlier access left the TAR cache
        stale, and from a recoverable state memory and bus are not disturbed. */
    method Resume() returns (err: Error)
      requires Valid()
      modifies this`dap, this`dpSelect, this`apTar
      ensures Valid() && SameWire(old(dap), dap) && (old(dap).sticky ==> dap.sticky)
      ensures old(dap).ticks <= dap.ticks <= old(dap).ticks + HART_COST
      ensures !sessionActive ==> err == InvalidState && dap == old(dap)
      ensures old(CoreOf(dap).Stationary()) && err == NoError ==> Coherent() && Free(dap.dm)
      ensures old(Recoverable()) ==> HartOnly(old(dap).dm, dap.dm)
      ensures old(Prompt()) && sessionActive ==> err == NoError && Prompt()
    {
      hide DmiWrite, DmiAfterRead, DmiReadValue, Device.Shaped, CoreAfterWrite, CoreAfterRead, ToBits, HartSettle;
      if !sessionActive {
        return InvalidState;
      }
      ghost var m, t := dap.dm, Reached(apTar, dap.tar, DMCONTROL);
      ghost var c := Aimed(apTar, CoreOf(dap), DMCONTROL);
      err := DmiWriteRegister(DMCONTROL, RESUME_REQUEST);
      ControlWrite(m);
      AccessInCore(c, RESUME_REQUEST);
      AccessKeepsTar(c, RESUME_REQUEST);
      if err != NoError {
        return;
      }
      err := WaitDmStatus(WantResumeAck);
      if err != NoError {
        return;
      }
      m := dap.dm;
      err := DmiWriteRegister(DMCONTROL, ACTIVE_ONLY);
      ControlWrite(m);
      if err != NoError {
        return;
      }
      err := WaitDmStatus(WantRunning);
    }

    /** Resets the system and waits for the core to run. */
    method SystemReset() returns (err: Error)
      requires Valid()
      modifies this`dap, this`dpSelect, this`apTar
      ensures Valid() && SameWire(old(dap), dap) && (old(dap).sticky ==> dap.sticky)
      ensures old(dap).ticks <= dap.ticks <= old(dap).ticks + HART_COST
      ensures !sessionActive ==> err == InvalidState && dap == old(dap)
      ensures old(Coherent()) ==> SameMemory(old(dap).dm.dev, dap.dm.dev) && dap.dm.fates == old(dap).dm.fates
      ensures old(Coherent()) && err == NoError ==>
        Coherent() && Free(dap.dm) && dap.dm.dev == ResetRegisters(old(dap).dm.dev)
      ensures old(Prompt()) && sessionActive ==> err == NoError && Prompt()
    {
      hide DmiWrite, DmiAfterRead, DmiReadValue, Device.Shaped, CoreAfterWrite, CoreAfterRead, Reached, AccessStep, ToBits, Core.Stationary, HartSettle;
      if !sessionActive {
        return InvalidState;
      }
      ghost var m := dap.dm;
      err := DmiWriteRegister(DMCONTROL, RESET_REQUEST);
      ControlWrite(m);
      if err == NoError {
        m := dap.dm;
        err := DmiWriteRegister(DMCONTROL, ACTIVE_ONLY);
        ControlWrite(m);
      }
      if err == NoError {
        err := WaitDmStatus(WantRunning);
      }
    }

    // ---- session ---------------------------------------------------------------------------

    method DpRead(reg: int) returns (err: Error, value: Word)
      requires dap.dm.dev.Shaped() && (reg == DP_IDCODE || reg == DP_CTRL_STAT)
      modifies this`dap
      ensures dap.dm.dev.Shaped() && SameWire(old(dap), dap) && CoreOf(dap) == CoreOf(old(dap))
      ensures dap.sticky == old(dap).sticky && dap.select == old(dap).select
      ensures old(dap).ticks <= dap.ticks <= old(dap).ticks + 64
      ensures dap.asked == old(dap).asked
      ensures CleanLine(dap.line) ==> err == NoError
      ensures err == NoError && reg == DP_CTRL_STAT ==>
        dap.ticks > 0 && (Powered(value) <==> dap.asked && dap.line(dap.ticks - 1).powered)
    {
      hide Transfer, Blocked, Device.Shaped;
      ghost var at;
      err, value, at := SwdTransfer(false, true, reg, ZERO_WORD);
      StatusTransfer(old(dap).(ticks := at), reg);
      NeverBlocked(old(dap), reg);
    }

    method DpWrite(reg: int, value: Word) returns (err: Error)
      requires dap.dm.dev.Shaped() && (reg == DP_ABORT || reg == DP_CTRL_STAT)
      modifies this`dap
      ensures dap.dm.dev.Shaped() && SameWire(old(dap), dap) && CoreOf(dap) == CoreOf(old(dap))
      ensures dap.select == old(dap).select
      ensures old(dap).ticks <= dap.ticks <= old(dap).ticks + 64
      ensures reg != DP_ABORT && old(dap).sticky ==> dap.sticky
      ensures CleanLine(dap.line) ==> err == NoError && dap.sticky == (reg != DP_ABORT && old(dap).sticky)
      ensures CleanLine(dap.line) && reg == DP_CTRL_STAT && value == POWER_REQUEST ==> dap.asked
    {
      hide Transfer, Blocked, Device.Shaped;
      ghost var at, data;
      err, data, at := SwdTransfer(false, false, reg, value);
      PortWriteTransfer(old(dap).(ticks := at), reg, value);
      NeverBlocked(old(dap), reg);
    }

    /** Power-up of the debug port. Leaves the SELECT cache describing bank zero. */
    method SwdConnect() returns (err: Error, dpIdcode: Word)
      requires dap.dm.dev.Shaped() && dap.select < 0x100 && dpSelect == UNKNOWN
      modifies this`dap, this`dpSelect
      ensures Valid() && SameWire(old(dap), dap) && CoreOf(dap) == CoreOf(old(dap))
      ensures dap.ticks <= old(dap).ticks + 107 * 64
      ensures err == NoError ==> dap.ticks > 0 && dap.asked && dap.line(dap.ticks - 1).powered
      ensures CleanLine(dap.line) ==> err == NoError && !dap.sticky
    {
      hide Transfer, Blocked, CoreOf, Device.Shaped, ToWord, Core.Stationary, Powered;
      var value;
      dpIdcode := ZERO_WORD;
      err, value := DpRead(DP_IDCODE);
      if err != NoError { return; }
      dpIdcode := value;
      err := DpWrite(DP_ABORT, Word(0x1f, 0, 0, 0));
      if err != NoError { return; }
      err, value := DpRead(DP_CTRL_STAT);
      if err != NoError { return; }
      err := SelectBankZero();
      if err != NoError { return; }
      err, value := DpRead(DP_CTRL_STAT);
      if err != NoError { return; }
      if Powered(value) { return; }
      err := DpWrite(DP_CTRL_STAT, POWER_REQUEST);
      if err != NoError { return; }
      err := AwaitPower();
    }

    /** Polls until power-up is acknowledged. */
    method AwaitPower() returns (err: Error)
      requires Valid()
      modifies this`dap
      ensures Valid() && SameWire(old(dap), dap) && CoreOf(dap) == CoreOf(old(dap))
      ensures dap.ticks <= old(dap).ticks + 100 * 64
      ensures err == NoError ==> dap.ticks > 0 && dap.asked && dap.line(dap.ticks - 1).powered
      ensures CleanLine(dap.line) && old(dap.asked && !dap.sticky) ==> err == NoError && !dap.sticky
    {
      hide CoreOf, Device.Shaped, Core.Stationary, Powered;
      var attempt := 0;
      while attempt < 100
        invariant 0 <= attempt <= 100
        invariant Valid() && SameWire(old(dap), dap) && CoreOf(dap) == CoreOf(old(dap))
        invariant dap.ticks <= old(dap).ticks + attempt * 64
        invariant dap.asked == old(dap).asked
        invariant CleanLine(dap.line) && old(dap.asked && !dap.sticky) ==> attempt == 0 && !dap.sticky
      {
        var value;
        err, value := DpRead(DP_CTRL_STAT);
        if err != NoError { return; }
        if Powered(value) { return; }
        attempt := attempt + 1;
      }
      err := Timeout;
    }

    method SelectBankZero() returns (err: Error)
      requires dap.dm.dev.Shaped() && dap.select < 0x100 && dpSelect == UNKNOWN
      modifies this`dap, this`dpSelect
      ensures Valid() && SameWire(old(dap), dap) && CoreOf(dap) == CoreOf(old(dap))
      ensures dap.ticks <= old(dap).ticks + 64
      ensures CleanLine(dap.line) && !old(dap).sticky ==> err == NoError && !dap.sticky
    {
      hide Transfer, Blocked, CoreOf, Device.Shaped, ToWord;
      ghost var data, at;
      err, data, at := SwdTransfer(false, false, DP_SELECT, ToWord(0));
      SelectTransfer(old(dap).(ticks := at), 0);
      Unblocked(old(dap));
      CoreIgnoresTicks(old(dap), at);
      CoreIgnoresTicks(old(dap), dap.ticks);
      if err == NoError {
        dpSelect := 0;
      }
    }

    /** Checks the access port and makes it address single 32-bit registers. */
    method ApPrepareDmi() returns (err: Error)
      requires Valid()
      modifies this`dap, this`dpSelect, this`apTar, this`apCswBase
      ensures Valid() && SameWire(old(dap), dap) && dap.dm == old(dap).dm
      ensures dap.ticks <= old(dap).ticks + 3 * 192
      ensures err == NoError ==> Coherent() && !dap.sticky && apTar == UNKNOWN
      ensures CleanLine(dap.line) && !old(dap).sticky && dap.idr != ZERO_WORD && dap.idr != ALL_ONES_WORD ==> err == NoError
    {
      hide Device.Shaped, DmiWrite, DmiAfterRead, DmiReadValue, Change, ToBits, ToWord, FromWord;
      var idr, csw;
      err, idr := ApRead(AP_IDR);
      if err != NoError { return; }
      if idr == ZERO_WORD || idr == ALL_ONES_WORD {
        return NotFound;
      }
      err, csw := ApRead(AP_CSW);
      if err != NoError { return; }
      apCswBase := Change(csw, Word(0x37, 0, 0, 0), ZERO_WORD);
      apTar := UNKNOWN;
      err := ApWrite(AP_CSW, Change(apCswBase, ZERO_WORD, Word(0x02, 0, 0, 0)));
      NoIncrement(csw);
    }

    /** Opens a session: caches start unknown, so nothing the port did before matters. */
    method SessionBegin(gpio: Error) returns (err: Error, dpIdcode: Word)
      requires dap.dm.dev.Shaped() && dap.select < 0x100
      modifies this
      ensures dap.dm == old(dap).dm && SameWire(old(dap), dap) && dap.select < 0x100
      ensures dap.ticks <= old(dap).ticks + 107 * 64 + 3 * 192
      ensures old(sessionActive) ==> err == InvalidState && sessionActive && dap == old(dap)
      ensures !old(sessionActive) ==> sessionActive == (err == NoError)
      ensures err == NoError ==> Coherent() && !dap.sticky && apTar == UNKNOWN
      ensures !old(sessionActive) && gpio == NoError && CleanLine(dap.line)
          && dap.idr != ZERO_WORD && dap.idr != ALL_ONES_WORD
        ==> err == NoError
    {
      hide Device.Shaped, Core.Stationary, CoreAfterWrite, CoreAfterRead;
      dpIdcode := ZERO_WORD;
      if sessionActive {
        return InvalidState, dpIdcode;
      }
      err := gpio;
      if err == NoError {
        dpSelect := UNKNOWN;
        err, dpIdcode := SwdConnect();
      }
      if err == NoError {
        err := ApPrepareDmi();
      }
      if err == NoError {
        sessionActive := true;
      }
    }

    method SessionEnd()
      modifies this`sessionActive
      ensures !sessionActive
    {
      sessionActive := false;
    }
  }

  const SB_WAIT_LIMIT: nat := 10000
  const SB_WAIT_COST: nat := 3_840_000
  const MEMORY_COST: nat := 2 * 3_840_000 + 3 * 384

  /** A request is honoured at some moment of this stretch. */
  ghost predicate HartBy(fates: nat -> Fate, from: nat, to: nat) {
    exists u: nat :: from <= u < to && fates(u).hartReady
  }

  const DM_WAIT_LIMIT: nat := 1000

  ghost predicate HartSoon(fates: nat -> Fate, from: nat) { HartBy(fates, from, from + DM_WAIT_LIMIT) }

  /** No access fails or keeps the bus busy beyond the driver's patience, every request is
      honoured within it, and the flash controller is sound. */
  ghost predicate CleanBus(fates: nat -> Fate) {
    && SoundBus(fates)
    && (forall t :: !fates(t).busError && fates(t).sbDelay < SB_WAIT_LIMIT)
    && forall t: nat :: HartSoon(fates, t)
  }

  lemma ConfiguredIs(m: Dm, read: bool, n: nat)
    requires m.dev.Shaped()
    ensures Configured(m, read, n) == DmiWrite(m, SBCS, ConfigWord(read, n))
  {
    hide DmiWrite, ConfigWord;
  }

  lemma FateIsClean(m: Dm, t: nat)
    requires CleanBus(m.fates)
    ensures !m.fates(t).busError && m.fates(t).sbDelay < SB_WAIT_LIMIT
  {}

  lemma WriteOutcome(m: Dm, a: u32, n: nat, w: Word)
    requires m.dev.Shaped() && IsWidth(n)
    ensures Written(m.dev, a, n, w, ActualWrite(m.dev, a, n, w, m.fates(m.clock + 2)), m.fates)
    ensures CleanBus(m.fates) ==> !m.fates(m.clock + 2).busError && m.fates(m.clock + 2).sbDelay < SB_WAIT_LIMIT
  {
    hide ActualWrite, Contained, IdealWrite;
    ActualIsWritten(m.dev, a, n, w, m.fates, m.clock + 2);
  }

  predicate Powered(status: Word) { ToBits(status.b3).x5 && ToBits(status.b3).x7 }

  lemma StatusTransfer(d: Dap, reg: int)
    requires d.dm.dev.Shaped() && (reg == DP_IDCODE || reg == DP_CTRL_STAT)
    ensures var (e, v, d') := Transfer(d, false, true, reg, ZERO_WORD);
      && d' == d.(ticks := d.ticks + 1)
      && (e == SwdOk && reg == DP_CTRL_STAT ==> (Powered(v) <==> d.asked && d.line(d.ticks).powered))
  {
    hide Device.Shaped, Powered;
    PowerBits();
  }

  const POWER_REQUEST := Word(0x01, 0, 0, 0x50)

  lemma PowerBits()
    ensures Powered(Word(0, 0, 0, 0xf0)) && !Powered(ZERO_WORD)
  {}

  lemma PortWriteTransfer(d: Dap, reg: int, w: Word)
    requires d.dm.dev.Shaped() && (reg == DP_ABORT || reg == DP_CTRL_STAT)
    ensures var (e, _, d') := Transfer(d, false, false, reg, w);
      && d' == d.(ticks := d.ticks + 1, sticky := d'.sticky, asked := d'.asked)
      && (CleanLine(d.line) && reg == DP_CTRL_STAT && w == POWER_REQUEST ==> d'.asked)
      && (reg != DP_ABORT && d.sticky ==> d'.sticky)
      && (CleanLine(d.line) ==> d'.sticky == (reg != DP_ABORT && d.sticky))
  {
    hide Device.Shaped;
  }

  lemma NeverBlocked(d: Dap, reg: int)
    ensures reg == DP_IDCODE || reg == DP_CTRL_STAT ==> !Blocked(d, false, true, reg)
    ensures reg == DP_ABORT || reg == DP_CTRL_STAT ==> !Blocked(d, false, false, reg)
  {}

  lemma NoIncrement(csw: Word)
    ensures var w := Change(Change(csw, Word(0x37, 0, 0, 0), ZERO_WORD), ZERO_WORD, Word(0x02, 0, 0, 0));
      !ToBits(w.b0).x4 && !ToBits(w.b0).x5
  {
    IncrementBits();
    hide ToBits, Mask;
    MaskBits(csw.b0, 0x37, 0);
    MaskBits(Mask(csw.b0, 0x37, 0), 0, 0x02);
  }

  lemma IncrementBits()
    ensures ToBits(0x37).x4 && ToBits(0x37).x5 && !ToBits(0).x4 && !ToBits(0).x5 && !ToBits(0x02).x4 && !ToBits(0x02).x5
  {}

  datatype Wanted = WantHalted | WantResumeAck | WantRunning

  const HALT_REQUEST := Word(0x01, 0, 0, 0x80)
  const RESUME_REQUEST := Word(0x01, 0, 0, 0x40)
  const RESET_REQUEST := Word(0x03, 0, 0, 0)
  const ACTIVE_ONLY := Word(0x01, 0, 0, 0)
  const DM_WAIT_COST: nat := 384_000
  const HART_COST: nat := 2 * 384_000 + 2 * 384

  /** Both the any- and the all-bit of the wanted condition are up. */
  predicate Shows(status: Word, wanted: Wanted) {
    match wanted
    case WantHalted => ToBits(status.b1).x0 && ToBits(status.b1).x1
    case WantRunning => ToBits(status.b1).x2 && ToBits(status.b1).x3
    case WantResumeAck => ToBits(status.b2).x0 && ToBits(status.b2).x1
  }

  predicate Met(m: Dm, wanted: Wanted) {
    match wanted
    case WantHalted => m.hart == Halted
    case WantRunning => m.hart == Running
    case WantResumeAck => m.resumeAck
  }

  /** The next status read will show the wanted condition if requests are honoured. */
  predicate Due(m: Dm, wanted: Wanted) {
    match wanted
    case WantHalted => m.request == ToHalt
    case WantRunning => m.request == ToRun || (m.request == NoRequest && m.hart == Running)
    case WantResumeAck => m.request == ToRun || m.resumeAck
  }

  /** The core runs and nothing is asked of it. */
  predicate Going(m: Dm) { m.hart == Running && m.request == NoRequest }

  /** Only the hart, and time, have moved. */
  ghost predicate HartOnly(m: Dm, m': Dm) {
    m' == m.(hart := m'.hart, request := m'.request, resumeAck := m'.resumeAck, clock := m'.clock)
  }

  predicate SameMemory(d: Device, d': Device) { d'.flash == d.flash && d'.option == d.option && d'.id == d.id }

  lemma PollHart(m: Dm, wanted: Wanted)
    requires m.dev.Shaped()
    ensures HartOnly(m, DmiAfterRead(m, DMSTATUS))
    ensures m.request != ToHalt ==> DmiAfterRead(m, DMSTATUS).request != ToHalt
    ensures Shows(DmiReadValue(m, DMSTATUS), wanted) <==> Met(DmiAfterRead(m, DMSTATUS), wanted)
    ensures m.fates(m.clock).hartReady && Due(m, wanted) ==> Met(DmiAfterRead(m, DMSTATUS), wanted)
    ensures m.fates(m.clock).hartReady && m.request == ToRun ==> Going(DmiAfterRead(m, DMSTATUS))
    ensures !m.fates(m.clock).hartReady ==> DmiAfterRead(m, DMSTATUS) == m.(clock := m.clock + 1)
    ensures DmiAfterRead(m, DMSTATUS).clock == m.clock + 1
  {}

  lemma LaterHart(m: Dm, from: nat)
    ensures !HartBy(m.fates, from, m.clock) && !m.fates(m.clock).hartReady ==> !HartBy(m.fates, from, m.clock + 1)
    ensures !HartBy(m.fates, m.clock, m.clock)
  {}

  lemma HartInTime(fates: nat -> Fate, from: nat)
    ensures CleanBus(fates) ==> HartBy(fates, from, from + DM_WAIT_LIMIT)
  {
    assert CleanBus(fates) ==> HartSoon(fates, from);
  }

  lemma ControlWrite(m: Dm)
    requires m.dev.Shaped()
    ensures HartOnly(m, DmiWrite(m, DMCONTROL, HALT_REQUEST))
    ensures HartOnly(m, DmiWrite(m, DMCONTROL, RESUME_REQUEST))
    ensures forall w :: HartOnly(m, DmiWrite(m, DMSTATUS, w))
    ensures Due(DmiWrite(m, DMCONTROL, HALT_REQUEST), WantHalted)
    ensures DmiWrite(m, DMCONTROL, RESUME_REQUEST).request == ToRun
    ensures Going(m) || m.request == ToRun ==> Due(DmiWrite(m, DMCONTROL, ACTIVE_ONLY), WantRunning)
    ensures HartOnly(m, DmiWrite(m, DMCONTROL, ACTIVE_ONLY))
    ensures DmiWrite(m, DMCONTROL, ACTIVE_ONLY).request != ToHalt
    ensures m.hart == InReset ==> Due(DmiWrite(m, DMCONTROL, ACTIVE_ONLY), WantRunning)
    ensures var r := DmiWrite(m, DMCONTROL, RESET_REQUEST);
      r.dev == ResetRegisters(m.dev) && r.fates == m.fates && r.hart == InReset && r.sb == m.sb
  {
    ControlBits();
    hide ToBits, BusRead, BusWrite, Configure, FromWord;
  }

  lemma ControlBits()
    ensures ToBits(0x01) == Bits(true, false, false, false, false, false, false, false)
    ensures ToBits(0x03) == Bits(true, true, false, false, false, false, false, false)
    ensures ToBits(0x00) == Bits(false, false, false, false, false, false, false, false)
    ensures ToBits(0x40) == Bits(false, false, false, false, false, false, true, false)
    ensures ToBits(0x80) == Bits(false, false, false, false, false, false, false, true)
  {}

  const DMI_COST: nat := 384

  /** The target address a register access ends up at: no address is sent when the cache
      already names the register, so what the target holds decides. */
  function Reached(cache: u32, tar: u32, reg: int): u32
    requires 0 <= reg < 0x80
  {
    if cache == 4 * reg then tar else 4 * reg
  }

  function Aimed(cache: u32, c: Core, reg: int): Core
    requires 0 <= reg < 0x80
  {
    c.(tar := Reached(cache, c.tar, reg))
  }

  /** Where an access can have stopped. At the address: then the cache is as it was, and the
      address may have arrived all the same. Or at the data: then the cache names the register,
      and the data may have arrived all the same. Or nowhere. */
  ghost predicate AccessStep(cache: u32, before: Core, reg: int, ok: bool, cache': u32, now: Core, done: Core)
    requires 0 <= reg < 0x80
  {
    if cache' != 4 * reg then !ok && cache' == cache && (now == before || now == before.(tar := 4 * reg))
    else (now == Aimed(cache, before, reg) || now == done) && (ok ==> now == done)
  }

  lemma AccessInCore(c: Core, w: Word)
    requires c.dm.dev.Shaped()
    ensures CoreAfterWrite(c, AP_DRW, w).dm == DmiWrite(c.dm, c.tar / 4, w)
    ensures CoreAfterRead(c, AP_DRW).dm == DmiAfterRead(c.dm, c.tar / 4)
  {
    hide DmiWrite, DmiAfterRead, ToBits;
  }

  lemma AccessKeepsTar(c: Core, w: Word)
    requires c.dm.dev.Shaped()
    ensures c.Stationary() ==> CoreAfterWrite(c, AP_DRW, w).tar == c.tar && CoreAfterRead(c, AP_DRW).tar == c.tar
    ensures CoreAfterWrite(c, AP_DRW, w).csw == c.csw && CoreAfterRead(c, AP_DRW).csw == c.csw
  {
    hide DmiWrite, DmiAfterRead, ToBits;
  }

  lemma CoreIgnoresTicks(d: Dap, t: nat)
    ensures CoreOf(d.(ticks := t)) == CoreOf(d)
  {}

  lemma Unblocked(d: Dap)
    ensures !d.sticky ==> forall ap, read, reg :: !Blocked(d, ap, read, reg)
  {}

  lemma SelectTransfer(d: Dap, select: u32)
    requires d.dm.dev.Shaped() && select < 0x100 && select % 16 == 0
    ensures var (e, _, d') := Transfer(d, false, false, DP_SELECT, ToWord(select));
      && d'.dm.dev.Shaped() && SameWire(d, d') && CoreOf(d') == CoreOf(d)
      && (e == SwdOk ==> !d.sticky && (d'.sticky || d'.select == select) && (d'.select == select || d'.select == d.select))
      && (e != SwdOk ==> d'.sticky == d.sticky && d'.select == d.select)
      && (CleanLine(d.line) && e == SwdOk ==> !d'.sticky)
      && d'.line == d.line
  {
    hide ToWord, FromWord, Device.Shaped;
    WordRoundTrip(select);
  }

  lemma WriteTransfer(d: Dap, reg: int, w: Word)
    requires d.dm.dev.Shaped()
    ensures var (e, _, d') := Transfer(d, true, false, reg, w);
      && d'.dm.dev.Shaped() && SameWire(d, d') && d'.select == d.select && d'.line == d.line
      && (e == SwdOk ==> !d.sticky && (d'.sticky || CoreOf(d') == CoreOf(ApAfterWrite(d, reg, w))))
      && (e != SwdOk || d'.sticky ==> CoreOf(d') == CoreOf(d))
      && (e != SwdOk ==> d'.sticky == d.sticky)
      && (CleanLine(d.line) && e == SwdOk ==> !d'.sticky)
  {
    hide DmiWrite, FromWord, ToBits;
    if !d.sticky && d.line(d.ticks).ack == AckOk && !d.line(d.ticks).dropData {
      ShapedWrite(d.dm, d.tar / 4, w);
    }
  }

  lemma BufferTransfer(d: Dap)
    requires d.dm.dev.Shaped()
    ensures var (e, v, d') := Transfer(d, false, true, DP_RDBUFF, ZERO_WORD);
      && d'.dm.dev.Shaped() && SameWire(d, d') && d'.select == d.select && d'.line == d.line
      && CoreOf(d') == CoreOf(d) && d'.sticky == d.sticky
      && (e == SwdOk ==> !d.sticky && v == d.posted)
  {}

  lemma ReadTransfer(d: Dap, reg: int)
    requires d.dm.dev.Shaped()
    ensures var (e, _, d') := Transfer(d, true, true, reg, ZERO_WORD);
      && d'.dm.dev.Shaped() && SameWire(d, d') && d'.select == d.select && d'.line == d.line
      && d'.sticky == d.sticky
      && (e == SwdOk ==> !d.sticky && CoreOf(d') == CoreOf(ApAfterRead(d, reg)) && d'.posted == ApAfterRead(d, reg).posted)
      && (CoreOf(d') == CoreOf(d) || (!d.sticky && CoreOf(d') == CoreOf(ApAfterRead(d, reg))))
  {
    hide DmiAfterRead, DmiReadValue, ToWord, ToBits;
    ShapedRead(d.dm, d.tar / 4);
  }

  /** The next two transfers are acknowledged, and a write's data gets through. */
  predicate Heard(d: Dap) {
    && d.line(d.ticks).ack == AckOk && !d.line(d.ticks).dropData
    && d.line(d.ticks + 1).ack == AckOk
  }

  /** A heard register write takes effect, whether or not its confirmation can be read. */
  lemma HeardWrite(d: Dap, address: int, w: Word)
    requires d.dm.dev.Shaped() && 0 <= address < 0x100
    ensures Heard(d) && !d.sticky && d.select == Bank(address) ==>
      var (e, _, d1) := Transfer(d, true, false, Low(address), w);
      && e == SwdOk && d1.dm.dev.Shaped() && !d1.sticky && d1.ticks == d.ticks + 1
      && var (e2, _, d2) := Transfer(d1, false, true, DP_RDBUFF, ZERO_WORD);
      && e2 == (if d.line(d.ticks + 1).badParity then SwdInvalidCrc else SwdOk)
      && !d2.sticky && d2.ticks == d.ticks + 2 && d2.select == d.select
      && CoreOf(d2) == CoreAfterWrite(CoreOf(d), address, w)
  {
    hide DmiWrite, FromWord, ToBits, DpReadValue;
    WriteTransfer(d, Low(address), w);
  }

  function SwdErrorOf(e: Error): SwdError {
    match e
    case NoError => SwdOk
    case Timeout => SwdTimeout
    case InvalidCrc => SwdInvalidCrc
    case _ => SwdInvalidResponse
  }

  lemma TransferTicks(d: Dap, ap: bool, read: bool, reg: int, w: Word)
    requires d.dm.dev.Shaped()
    ensures Transfer(d, ap, read, reg, w).2.ticks == d.ticks + 1
    ensures Transfer(d, ap, read, reg, w).2.line == d.line
    ensures Transfer(d, ap, read, reg, w).0 == SwdTimeout ==> Transfer(d, ap, read, reg, w).2 == d.(ticks := d.ticks + 1)
    ensures CleanLine(d.line) && !Blocked(d, ap, read, reg) ==> Transfer(d, ap, read, reg, w).0 == SwdOk
  {
    hide DmiWrite, DmiAfterRead, DmiReadValue, FromWord, ToWord;
  }
}
