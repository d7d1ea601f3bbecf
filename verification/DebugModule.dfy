/** The target side of the debug link: a RISC-V debug module with its system bus master
    (RISC-V External Debug Support 0.13.2, sections 3.9 and 3.12) behind a serial-wire
    debug port and one access port (Arm ADIv5.2, chapter B4). */
module DebugModule {
  import opened Bytes
  import opened FlashDevice

  // ---- system bus master ------------------------------------------------------------

  const DMCONTROL := 0x10
  const DMSTATUS := 0x11
  const SBCS := 0x38
  const SBADDRESS0 := 0x39
  const SBDATA0 := 0x3c

  datatype Sb = Sb(
    error: bool, busyError: bool, width: nat, readOnAddr: bool, readOnData: bool, autoIncrement: bool,
    busy: nat,                // status reads until the running access is done
    address: u32, data: Word)

  datatype Hart = Running | Halted | InReset

  datatype Request = NoRequest | ToHalt | ToRun

  datatype Dm = Dm(
    sb: Sb, hart: Hart, request: Request, resumeAck: bool,
    dev: Device, fates: nat -> Fate, clock: nat)

  /** The status fields the driver looks at, in register form. */
  function SbStatus(sb: Sb): Word {
    Word(0, if sb.error then 0x20 else 0,
         (if sb.busyError then 0x40 else 0) | (if sb.busy > 0 then 0x20 else 0)
         | (if sb.readOnAddr then 0x10 else 0) | (if sb.width == 2 then 0x02 else 0) | (if sb.width == 4 then 0x04 else 0), 0)
  }

  /** A write to the control register: error flags are cleared by writing ones. */
  function Configure(sb: Sb, w: Word): Sb {
    var mid, high := ToBits(w.b1), ToBits(w.b2);
    sb.(error := sb.error && !(mid.x4 && mid.x5 && mid.x6),
        busyError := sb.busyError && !high.x6,
        width := if high.x1 && !high.x2 && !high.x3 then 2 else if high.x2 && !high.x1 && !high.x3 then 4 else 1,
        readOnAddr := high.x4, readOnData := mid.x7, autoIncrement := high.x0)
  }

  predicate BusTarget(sb: Sb) { IsWidth(sb.width) && sb.address % sb.width == 0 && Mapped(sb.address, sb.width) }

  function Advance(sb: Sb): u32 {
    if sb.autoIncrement then (sb.address + sb.width) % 0x1_0000_0000 else sb.address
  }

  function BusWrite(m: Dm, f: Fate): Dm
    requires m.dev.Shaped()
  {
    if f.busError || !BusTarget(m.sb) then m.(sb := m.sb.(error := true))
    else m.(sb := m.sb.(busy := f.sbDelay, address := Advance(m.sb)),
            dev := ActualWrite(m.dev, m.sb.address, m.sb.width, m.sb.data, f))
  }

  function BusRead(m: Dm, f: Fate): Dm
    requires m.dev.Shaped()
  {
    if f.busError || !BusTarget(m.sb) then m.(sb := m.sb.(error := true))
    else m.(sb := m.sb.(busy := f.sbDelay, address := Advance(m.sb), data := ReadBus(m.dev, m.sb.address, m.sb.width)),
            dev := AfterRead(m.dev, m.sb.address))
  }

  // ---- hart control -------------------------------------------------------------------

  function HartControl(m: Dm, w: Word): Dm {
    var low, high := ToBits(w.b0), ToBits(w.b3);
    if low.x1 then m.(hart := InReset, request := NoRequest, dev := ResetRegisters(m.dev))
    else if m.hart == InReset then m.(request := if high.x7 then ToHalt else ToRun)
    else if high.x7 then m.(request := ToHalt)
    else if high.x6 then m.(request := ToRun, resumeAck := false)
    else if m.request == ToHalt then m.(request := NoRequest)
    else m
  }

  /** The core runs and nothing is about to stop it. */
  predicate Free(m: Dm) { m.hart == Running && m.request != ToHalt }

  function HartSettle(m: Dm, f: Fate): Dm {
    if !f.hartReady then m
    else match m.request
      case NoRequest => m
      case ToHalt => m.(hart := Halted, request := NoRequest)
      case ToRun => m.(hart := Running, request := NoRequest, resumeAck := true)
  }

  function HartStatus(m: Dm): Word {
    Word(0, if m.hart == Halted then 0x03 else if m.hart == Running then 0x0c else 0,
         if m.resumeAck then 0x03 else 0, 0)
  }

  // ---- register access ------------------------------------------------------------------

  function DmiWrite(m0: Dm, reg: int, w: Word): Dm
    requires m0.dev.Shaped()
  {
    var f := m0.fates(m0.clock);
    var m := m0.(clock := m0.clock + 1);
    if reg == SBCS then m.(sb := Configure(m.sb, w))
    else if reg == SBADDRESS0 then
      if m.sb.busy > 0 then m.(sb := m.sb.(busyError := true))
      else
        var a := m.(sb := m.sb.(address := FromWord(w)));
        if m.sb.readOnAddr && !m.sb.error && !m.sb.busyError then BusRead(a, f) else a
    else if reg == SBDATA0 then
      if m.sb.busy > 0 then m.(sb := m.sb.(busyError := true))
      else if m.sb.error || m.sb.busyError then m
      else BusWrite(m.(sb := m.sb.(data := w)), f)
    else if reg == DMCONTROL then HartControl(m, w)
    else m
  }

  function DmiReadValue(m: Dm, reg: int): Word {
    if reg == SBCS then SbStatus(m.sb)
    else if reg == SBADDRESS0 then ToWord(m.sb.address)
    else if reg == SBDATA0 then m.sb.data
    else if reg == DMSTATUS then HartStatus(HartSettle(m, m.fates(m.clock)))
    else ZERO_WORD
  }

  function DmiAfterRead(m0: Dm, reg: int): Dm
    requires m0.dev.Shaped()
  {
    var f := m0.fates(m0.clock);
    var m := m0.(clock := m0.clock + 1);
    if reg == SBCS then m.(sb := m.sb.(busy := if m.sb.busy > 0 then m.sb.busy - 1 else 0))
    else if reg == SBDATA0 then
      if m.sb.busy > 0 then m.(sb := m.sb.(busyError := true))
      else if m.sb.readOnData && !m.sb.error && !m.sb.busyError then BusRead(m, f)
      else m
    else if reg == DMSTATUS then HartSettle(m, f)
    else m
  }

  lemma ShapedWrite(m: Dm, reg: int, w: Word)
    requires m.dev.Shaped()
    ensures DmiWrite(m, reg, w).dev.Shaped()
  {
    hide ActualWrite, ReadBus, FromWord;
    forall d: Device, addr: int, n: nat, v: Word, f: Fate | d.Shaped() && IsWidth(n)
      ensures ActualWrite(d, addr, n, v, f).Shaped()
    {
      ShapedActual(d, addr, n, v, f);
    }
  }

  lemma ShapedRead(m: Dm, reg: int)
    requires m.dev.Shaped()
    ensures DmiAfterRead(m, reg).dev.Shaped()
  {
    hide ReadBus;
  }

  lemma ShapedActual(d: Device, addr: int, n: nat, w: Word, f: Fate)
    requires d.Shaped() && IsWidth(n)
    ensures ActualWrite(d, addr, n, w, f).Shaped()
  {
    hide ActualWrite;
    ActualIsWritten(d, addr, n, w, t => f, 0);
  }

  // ---- debug port, access port and the wire ------------------------------------------------

  const DP_ABORT := 0x00
  const DP_IDCODE := 0x00
  const DP_CTRL_STAT := 0x04
  const DP_SELECT := 0x08
  const DP_RDBUFF := 0x0c
  const AP_CSW := 0x00
  const AP_TAR := 0x04
  const AP_DRW := 0x0c
  const AP_IDR := 0xfc

  datatype Ack = AckOk | AckWait | AckFault

  /** How one transfer fares on the wire. */
  datatype LineFate = LineFate(
    ack: Ack,             // what the host reads back; anything unreadable counts as a fault
    dropData: bool,       // a write's data phase arrives with bad parity and is discarded
    badParity: bool,      // a read's data phase arrives with bad parity
    unseen: bool,         // a read whose answer was unreadable happened all the same
    powered: bool)        // power-up, once requested, is acknowledged by now

  datatype Dap = Dap(
    select: u32,          // which bank of access port registers is selected
    sticky: bool,         // a discarded write blocks the access port until aborted
    asked: bool,          // power-up of debug and system has been requested
    csw: Word, tar: u32, posted: Word, idcode: Word, idr: Word,
    dm: Dm, line: nat -> LineFate, ticks: nat)
  {
    /** The access port does not move its address register by itself. */
    predicate Stationary() { !ToBits(csw.b0).x4 && !ToBits(csw.b0).x5 }
  }

  function Bank(address: int): int { address / 16 * 16 }

  function Low(address: int): int { address % 16 }

  function TarAfterAccess(d: Dap): u32 {
    if d.Stationary() then d.tar else (d.tar + 4) % 0x1_0000_0000
  }

  function ApAfterWrite(d: Dap, reg: int, w: Word): Dap
    requires d.dm.dev.Shaped()
  {
    var address := d.select + reg;
    if address == AP_CSW then d.(csw := w)
    else if address == AP_TAR then d.(tar := FromWord(w))
    else if address == AP_DRW then d.(dm := DmiWrite(d.dm, d.tar / 4, w), tar := TarAfterAccess(d))
    else d
  }

  function ApAfterRead(d: Dap, reg: int): Dap
    requires d.dm.dev.Shaped()
  {
    var address := d.select + reg;
    if address == AP_CSW then d.(posted := d.csw)
    else if address == AP_TAR then d.(posted := ToWord(d.tar))
    else if address == AP_DRW then
      d.(posted := DmiReadValue(d.dm, d.tar / 4), dm := DmiAfterRead(d.dm, d.tar / 4), tar := TarAfterAccess(d))
    else if address == AP_IDR then d.(posted := d.idr)
    else d.(posted := ZERO_WORD)
  }

  function DpAfterWrite(d: Dap, reg: int, w: Word): Dap {
    if reg == DP_ABORT then d.(sticky := false)
    else if reg == DP_SELECT then d.(select := Bank(FromWord(w)) % 0x100)
    else if reg == DP_CTRL_STAT then d.(asked := ToBits(w.b3).x4 && ToBits(w.b3).x6)
    else d
  }

  function DpReadValue(d: Dap, reg: int, f: LineFate): Word {
    if reg == DP_IDCODE then d.idcode
    else if reg == DP_CTRL_STAT then Word(0, 0, 0, if f.powered && d.asked then 0xf0 else 0)
    else if reg == DP_RDBUFF then d.posted
    else ZERO_WORD
  }

  /** With a write discarded earlier, only identification, status and abort still work. */
  predicate Blocked(d: Dap, ap: bool, read: bool, reg: int) {
    d.sticky && (ap || (read && reg == DP_RDBUFF) || (!read && reg == DP_SELECT))
  }

  datatype SwdError = SwdOk | SwdTimeout | SwdInvalidResponse | SwdInvalidCrc

  /** One transfer: what the host sees and what has become of the target. */
  function Transfer(d0: Dap, ap: bool, read: bool, reg: int, w: Word): (SwdError, Word, Dap)
    requires d0.dm.dev.Shaped()
  {
    var f := d0.line(d0.ticks);
    var d := d0.(ticks := d0.ticks + 1);
    if Blocked(d, ap, read, reg) then (SwdInvalidResponse, ZERO_WORD, d)
    else if f.ack == AckWait then (SwdTimeout, ZERO_WORD, d)
    else if f.ack == AckFault then
      (SwdInvalidResponse, ZERO_WORD, if read && f.unseen then AfterReadTransfer(d, ap, reg) else d)
    else if read then
      var data := if ap then d.posted else DpReadValue(d, reg, f);
      var d' := AfterReadTransfer(d, ap, reg);
      if f.badParity then (SwdInvalidCrc, ZERO_WORD, d') else (SwdOk, data, d')
    else if f.dropData then (SwdOk, ZERO_WORD, d.(sticky := true))
    else (SwdOk, ZERO_WORD, if ap then ApAfterWrite(d, reg, w) else DpAfterWrite(d, reg, w))
  }

  function AfterReadTransfer(d: Dap, ap: bool, reg: int): Dap
    requires d.dm.dev.Shaped()
  {
    if ap then ApAfterRead(d, reg) else d
  }
}
