/** What the register sequences of a system bus access do to the debug module. */
module SystemBus {
  import opened Bytes
  import opened FlashDevice
  import opened DebugModule

  /** Both error fields cleared, the access width, and for reads: fetch when the address arrives. */
  function ConfigWord(read: bool, n: nat): Word {
    Word(0, 0x70, 0x40 | (if n == 2 then 0x02 else 0x04) | (if read then 0x10 else 0), 0)
  }

  predicate SbBusy(status: Word) { ToBits(status.b2).x5 }

  /** The error code field or the busy-error flag is set. */
  predicate SbFailed(status: Word) {
    ToBits(status.b1).x4 || ToBits(status.b1).x5 || ToBits(status.b1).x6 || ToBits(status.b2).x6
  }

  lemma StatusBits(sb: Sb)
    ensures SbBusy(SbStatus(sb)) <==> sb.busy > 0
    ensures SbFailed(SbStatus(sb)) <==> sb.error || sb.busyError
  {}

  lemma ConfigBits(sb: Sb, read: bool, n: nat)
    requires IsWidth(n)
    ensures Configure(sb, ConfigWord(read, n)) ==
      sb.(error := false, busyError := false, width := n, readOnAddr := read, readOnData := false, autoIncrement := false)
  {}

  /** The hart and the oracle are as before. */
  ghost predicate HartUntouched(m: Dm, m': Dm) {
    m'.hart == m.hart && m'.request == m.request && m'.resumeAck == m.resumeAck && m'.fates == m.fates
  }

  function Configured(m: Dm, read: bool, n: nat): Dm
    requires m.dev.Shaped()
  {
    DmiWrite(m, SBCS, ConfigWord(read, n))
  }

  lemma ConfiguredBus(m: Dm, read: bool, n: nat)
    requires m.dev.Shaped() && IsWidth(n)
    ensures var c := Configured(m, read, n);
      c == m.(clock := m.clock + 1,
              sb := m.sb.(error := false, busyError := false, width := n, readOnAddr := read, readOnData := false, autoIncrement := false))
  {
    hide Configure, ConfigWord, BusRead, BusWrite, HartControl;
    ConfigBits(m.sb, read, n);
  }

  /** Configure, address, data: one bus write, or a reported error and nothing written. */
  lemma WriteSequence(m: Dm, a: u32, n: nat, w: Word)
    requires m.dev.Shaped() && m.sb.busy == 0 && IsWidth(n)
    ensures var c := Configured(m, false, n);
      var d := DmiWrite(c, SBADDRESS0, ToWord(a));
      && c.dev == m.dev && d.dev == m.dev && HartUntouched(m, c) && HartUntouched(m, d)
      && var e := DmiWrite(d, SBDATA0, w);
      && e.dev.Shaped() && HartUntouched(m, e) && !e.sb.busyError
      && (e.sb.error ==> e.dev == m.dev)
      && (!e.sb.error ==> e.dev == ActualWrite(m.dev, a, n, w, m.fates(m.clock + 2)))
      && (a % n == 0 && Mapped(a, n) && !m.fates(m.clock + 2).busError ==> !e.sb.error)
      && e.sb.busy <= m.fates(m.clock + 2).sbDelay
  {
    hide ConfigWord, ToWord, FromWord, ActualWrite, Device.Shaped, HartControl, BusRead, Mapped, Configured, Configure;
    ConfiguredBus(m, false, n);
    WordRoundTrip(a);
    var d := DmiWrite(Configured(m, false, n), SBADDRESS0, ToWord(a));
    ShapedWrite(d, SBDATA0, w);
  }

  /** Configure, address: one bus fetch, or a reported error. */
  lemma ReadSequence(m: Dm, a: u32, n: nat)
    requires m.dev.Shaped() && m.sb.busy == 0 && IsWidth(n)
    ensures var c := Configured(m, true, n);
      && c.dev == m.dev && HartUntouched(m, c)
      && var d := DmiWrite(c, SBADDRESS0, ToWord(a));
      && d.dev.Shaped() && HartUntouched(m, d) && !d.sb.busyError && !d.sb.readOnData
      && (d.sb.error ==> d.dev == m.dev)
      && (!d.sb.error ==> d.dev == AfterRead(m.dev, a) && d.sb.data == ReadBus(m.dev, a, n))
      && (a % n == 0 && Mapped(a, n) && !m.fates(m.clock + 1).busError ==> !d.sb.error)
      && d.sb.busy <= m.fates(m.clock + 1).sbDelay
  {
    hide ConfigWord, ToWord, FromWord, ReadBus, Device.Shaped, HartControl, BusWrite, Mapped, Configured, Configure;
    ConfiguredBus(m, true, n);
    WordRoundTrip(a);
    ShapedWrite(Configured(m, true, n), SBADDRESS0, ToWord(a));
  }

  /** Only time has passed on the bus. */
  ghost predicate Waited(m: Dm, m': Dm) {
    m' == m.(clock := m'.clock, sb := m.sb.(busy := m'.sb.busy)) && m'.sb.busy <= m.sb.busy
  }

  lemma PollStatus(m: Dm)
    requires m.dev.Shaped()
    ensures Waited(m, DmiAfterRead(m, SBCS)) && DmiReadValue(m, SBCS) == SbStatus(m.sb)
    ensures DmiAfterRead(m, SBCS).sb.busy == (if m.sb.busy > 0 then m.sb.busy - 1 else 0)
  {}

  lemma FetchData(m: Dm)
    requires m.dev.Shaped() && m.sb.busy == 0 && !m.sb.readOnData
    ensures Waited(m, DmiAfterRead(m, SBDATA0)) && DmiReadValue(m, SBDATA0) == m.sb.data
  {}
}
