/** The driver's register address cache over whole runs of accesses: when an access reaches
    the register it names, and exactly when it reaches another one. */
module CacheCoherence {
  import opened Errors
  import opened Bytes
  import opened FlashDevice
  import opened DebugModule
  import opened McuDebug

  /** The target's address register stays put over a data access exactly when automatic
      increment is off, which is what preparing the access port switches. */
  lemma TarKeptIff(c: Core, w: Word)
    requires c.dm.dev.Shaped()
    ensures CoreAfterWrite(c, AP_DRW, w).tar == c.tar <==> c.Stationary()
    ensures CoreAfterRead(c, AP_DRW).tar == c.tar <==> c.Stationary()
  {
    hide DmiWrite, DmiAfterRead, ToBits;
  }

  // ---- runs ----------------------------------------------------------------------------------

  datatype Access = ReadOf(reg: int) | WriteOf(reg: int, value: Word)

  predicate Known(a: Access) { 0 <= a.reg < 0x80 }

  ghost predicate AllKnown(accesses: seq<Access>) { forall k | 0 <= k < |accesses| :: Known(accesses[k]) }

  /** The driver's cache and the target between two accesses. */
  datatype Snap = Snap(cache: u32, core: Core)

  /** What the access does where it lands. */
  function Done(s: Snap, a: Access): Core
    requires s.core.dm.dev.Shaped() && Known(a)
  {
    var aimed := Aimed(s.cache, s.core, a.reg);
    match a case ReadOf(_) => CoreAfterRead(aimed, AP_DRW) case WriteOf(_, w) => CoreAfterWrite(aimed, AP_DRW, w)
  }

  /** How the driver performs an access, and with what result. */
  ghost predicate Performed(s: Snap, a: Access, err: Error, value: Word, s': Snap) {
    && s.core.dm.dev.Shaped() && Known(a)
    && AccessStep(s.cache, s.core, a.reg, err == NoError, s'.cache, s'.core, Done(s, a))
    && (err == NoError && a.ReadOf? ==> value == DmiReadValue(s.core.dm, Landing(s, a) / 4))
  }

  /** The target address the data goes to. */
  function Landing(s: Snap, a: Access): u32
    requires Known(a)
  {
    Reached(s.cache, s.core.tar, a.reg)
  }

  /** A run of accesses with the states between them. */
  ghost predicate IsRun(snaps: seq<Snap>, accesses: seq<Access>, errs: seq<Error>, values: seq<Word>) {
    && |snaps| == |accesses| + 1 && |errs| == |values| == |accesses| && AllKnown(accesses)
    && (snaps[0].cache == UNKNOWN || snaps[0].cache == snaps[0].core.tar) && snaps[0].core.Stationary()
    && forall k | 0 <= k < |accesses| :: Performed(snaps[k], accesses[k], errs[k], values[k], snaps[k + 1])
  }

  /** The address has to be sent: the cache does not name the register. */
  predicate Sends(s: Snap, a: Access) { s.cache != 4 * a.reg }

  /** The address is settled, so the access goes on to its data. */
  predicate GoesOn(a: Access, s': Snap) { s'.cache == 4 * a.reg }

  /** The address was sent and reported as failed, but arrived. */
  predicate LosesAddress(s: Snap, a: Access, s': Snap) {
    Sends(s, a) && !GoesOn(a, s') && s'.core.tar == 4 * a.reg
  }

  /** The address was sent successfully. */
  predicate SendsAddress(s: Snap, a: Access, s': Snap) { Sends(s, a) && GoesOn(a, s') }

  /** Access k goes on to its data at a register other than its own. */
  ghost predicate Misses(snaps: seq<Snap>, accesses: seq<Access>, k: nat)
    requires k < |accesses| && |snaps| == |accesses| + 1
  {
    Known(accesses[k]) && GoesOn(accesses[k], snaps[k + 1]) && Landing(snaps[k], accesses[k]) != 4 * accesses[k].reg
  }

  /** Address j was lost, and none has been sent successfully from then up to access k. */
  ghost predicate LostSince(snaps: seq<Snap>, accesses: seq<Access>, j: nat, k: nat)
    requires j < k <= |accesses| && |snaps| == |accesses| + 1
  {
    && LosesAddress(snaps[j], accesses[j], snaps[j + 1])
    && forall i | j < i < k :: !SendsAddress(snaps[i], accesses[i], snaps[i + 1])
  }

  ghost predicate Lost(snaps: seq<Snap>, accesses: seq<Access>, k: nat)
    requires k <= |accesses| && |snaps| == |accesses| + 1
  {
    exists j: nat :: j < k && LostSince(snaps, accesses, j, k)
  }

  /** One access leaves cache and target address agreeing, unless it loses its address. */
  lemma StepAgrees(s: Snap, a: Access, err: Error, value: Word, s': Snap)
    requires Performed(s, a, err, value, s') && s.core.Stationary()
    ensures s'.core.Stationary()
    ensures SendsAddress(s, a, s') ==> s'.cache == s'.core.tar
    ensures !SendsAddress(s, a, s') ==> s'.cache == s.cache
    ensures LosesAddress(s, a, s') ==> s'.cache != s'.core.tar
    ensures !SendsAddress(s, a, s') && !LosesAddress(s, a, s') ==> s'.core.tar == s.core.tar
  {
    hide CoreAfterWrite, CoreAfterRead, Core.Stationary, Device.Shaped, DmiReadValue;
    var aimed := Aimed(s.cache, s.core, a.reg);
    AccessKeepsTar(aimed, if a.WriteOf? then a.value else ZERO_WORD);
    AimedStationary(s.core, Reached(s.cache, s.core.tar, a.reg));
    SameCsw(s'.core, aimed);
    SameCsw(s'.core, s.core);
  }

  lemma AimedStationary(c: Core, tar: u32)
    ensures c.(tar := tar).Stationary() == c.Stationary()
  {}

  lemma SameCsw(a: Core, b: Core)
    ensures a.csw == b.csw ==> a.Stationary() == b.Stationary()
  {}

  /** Between accesses, a known cache disagrees with the target exactly when an address was
      lost and none sent since. */
  lemma {:induction false} DisagreesIff(snaps: seq<Snap>, accesses: seq<Access>, errs: seq<Error>, values: seq<Word>, k: nat)
    requires IsRun(snaps, accesses, errs, values) && k <= |accesses|
    ensures snaps[k].core.Stationary()
    ensures snaps[k].cache != UNKNOWN ==> (snaps[k].cache != snaps[k].core.tar <==> Lost(snaps, accesses, k))
  {
    hide Performed, Core.Stationary, LosesAddress, SendsAddress;
    if k > 0 {
      var s, a, s' := snaps[k - 1], accesses[k - 1], snaps[k];
      DisagreesIff(snaps, accesses, errs, values, k - 1);
      assert Performed(snaps[k - 1], accesses[k - 1], errs[k - 1], values[k - 1], snaps[k - 1 + 1]);
      StepAgrees(s, a, errs[k - 1], values[k - 1], s');
      LostNext(snaps, accesses, k - 1);
    }
  }

  /** What one access does to the history. */
  lemma LostNext(snaps: seq<Snap>, accesses: seq<Access>, k: nat)
    requires k < |accesses| && |snaps| == |accesses| + 1
    ensures Lost(snaps, accesses, k + 1) <==>
      || LosesAddress(snaps[k], accesses[k], snaps[k + 1])
      || (Lost(snaps, accesses, k) && !SendsAddress(snaps[k], accesses[k], snaps[k + 1]))
  {
    hide LosesAddress, SendsAddress;
    if LosesAddress(snaps[k], accesses[k], snaps[k + 1]) {
      assert LostSince(snaps, accesses, k, k + 1);
    }
    if Lost(snaps, accesses, k) && !SendsAddress(snaps[k], accesses[k], snaps[k + 1]) {
      var j: nat :| j < k && LostSince(snaps, accesses, j, k);
      assert LostSince(snaps, accesses, j, k + 1);
    }
    if Lost(snaps, accesses, k + 1) {
      var j: nat :| j < k + 1 && LostSince(snaps, accesses, j, k + 1);
      if j < k {
        assert LostSince(snaps, accesses, j, k);
      }
    }
  }

  /** An access misses its register exactly when an earlier address was lost, none has been
      sent successfully since, and the access names the cached register. */
  lemma MissesIff(snaps: seq<Snap>, accesses: seq<Access>, errs: seq<Error>, values: seq<Word>, k: nat)
    requires IsRun(snaps, accesses, errs, values) && k < |accesses|
    ensures Misses(snaps, accesses, k) <==> Lost(snaps, accesses, k) && !Sends(snaps[k], accesses[k])
  {
    hide Lost, Core.Stationary, Done;
    DisagreesIff(snaps, accesses, errs, values, k);
    assert Performed(snaps[k], accesses[k], errs[k], values[k], snaps[k + 1]);
  }

  /** Up to the first address that is lost, every access that succeeds has done exactly what
      it was asked to, at its own register. */
  lemma ReachesUntilLost(snaps: seq<Snap>, accesses: seq<Access>, errs: seq<Error>, values: seq<Word>, k: nat)
    requires IsRun(snaps, accesses, errs, values) && k < |accesses|
    requires forall j | 0 <= j < k :: !LosesAddress(snaps[j], accesses[j], snaps[j + 1])
    ensures !Misses(snaps, accesses, k)
    ensures errs[k] == NoError ==>
      && snaps[k].core.dm.dev.Shaped() && 0 <= accesses[k].reg < 0x80
      && match accesses[k]
         case ReadOf(reg) =>
           snaps[k + 1].core.dm == DmiAfterRead(snaps[k].core.dm, reg) && values[k] == DmiReadValue(snaps[k].core.dm, reg)
         case WriteOf(reg, w) => snaps[k + 1].core.dm == DmiWrite(snaps[k].core.dm, reg, w)
  {
    hide Core.Stationary, CoreAfterRead, CoreAfterWrite, DmiAfterRead, DmiReadValue, DmiWrite, LosesAddress, SendsAddress;
    MissesIff(snaps, accesses, errs, values, k);
    assert Performed(snaps[k], accesses[k], errs[k], values[k], snaps[k + 1]);
    var aimed := Aimed(snaps[k].cache, snaps[k].core, accesses[k].reg);
    AccessInCore(aimed, if accesses[k].WriteOf? then accesses[k].value else ZERO_WORD);
  }

  function SnapOf(l: Link): Snap
    reads l
  {
    Snap(l.apTar, CoreOf(l.dap))
  }

  /** Any accesses of a session, in any order, over any wire. */
  method RunAccesses(l: Link, accesses: seq<Access>) returns (errs: seq<Error>, values: seq<Word>, ghost snaps: seq<Snap>)
    requires l.Valid() && AllKnown(accesses)
    requires CoreOf(l.dap).Stationary() && (l.apTar == UNKNOWN || l.apTar == l.dap.tar)
    modifies l`dap, l`dpSelect, l`apTar
    ensures l.Valid() && IsRun(snaps, accesses, errs, values)
    ensures snaps[0] == old(SnapOf(l)) && snaps[|accesses|] == SnapOf(l)
    ensures forall k: nat | k < |accesses| ::
      Misses(snaps, accesses, k) <==> Lost(snaps, accesses, k) && !Sends(snaps[k], accesses[k])
  {
    hide AccessStep, Core.Stationary, Misses, Lost, Sends, CoreAfterRead, CoreAfterWrite, DmiReadValue, Link.Coherent, Link.OnTarget, Device.Shaped;
    errs, values, snaps := [], [], [SnapOf(l)];
    while |errs| < |accesses|
      invariant |errs| <= |accesses| && l.Valid()
      invariant snaps != [] && snaps[0] == old(SnapOf(l)) && snaps[|snaps| - 1] == SnapOf(l)
      invariant IsRun(snaps, accesses[..|errs|], errs, values)
    {
      var a := accesses[|errs|];
      ghost var s := SnapOf(l);
      var err, value := NoError, ZERO_WORD;
      match a {
        case ReadOf(reg) => err, value := l.DmiReadRegister(reg);
        case WriteOf(reg, w) => err := l.DmiWriteRegister(reg, w);
      }
      RunMore(snaps, accesses[..|errs|], errs, values, a, err, value, SnapOf(l));
      assert accesses[..|errs| + 1] == accesses[..|errs|] + [a];
      errs, values, snaps := errs + [err], values + [value], snaps + [SnapOf(l)];
    }
    assert accesses[..|errs|] == accesses;
    forall k: nat | k < |accesses|
      ensures Misses(snaps, accesses, k) <==> Lost(snaps, accesses, k) && !Sends(snaps[k], accesses[k])
    {
      MissesIff(snaps, accesses, errs, values, k);
    }
  }

  lemma RunMore(snaps: seq<Snap>, accesses: seq<Access>, errs: seq<Error>, values: seq<Word>, a: Access, err: Error, value: Word, s: Snap)
    requires IsRun(snaps, accesses, errs, values) && Performed(snaps[|snaps| - 1], a, err, value, s)
    ensures IsRun(snaps + [s], accesses + [a], errs + [err], values + [value])
  {
    hide Performed, Core.Stationary;
    var snaps', accesses', errs', values' := snaps + [s], accesses + [a], errs + [err], values + [value];
    assert Known(a) by { PerformedKnown(snaps[|snaps| - 1], a, err, value, s); }
    forall k | 0 <= k < |accesses'| ensures Performed(snaps'[k], accesses'[k], errs'[k], values'[k], snaps'[k + 1]) {
      if k < |accesses| {
        assert Performed(snaps[k], accesses[k], errs[k], values[k], snaps[k + 1]);
      }
    }
  }

  lemma PerformedKnown(s: Snap, a: Access, err: Error, value: Word, s': Snap)
    requires Performed(s, a, err, value, s')
    ensures Known(a)
  {}

  /** A whole session: opening it leaves the cache unknown, which is all the run needs. */
  method RunSession(l: Link, gpio: Error, accesses: seq<Access>)
    returns (err: Error, errs: seq<Error>, values: seq<Word>, ghost snaps: seq<Snap>)
    requires l.dap.dm.dev.Shaped() && l.dap.select < 0x100 && AllKnown(accesses)
    modifies l
    ensures err == NoError ==> IsRun(snaps, accesses, errs, values)
    ensures err == NoError ==> forall k: nat | k < |accesses| ::
      Misses(snaps, accesses, k) <==> Lost(snaps, accesses, k) && !Sends(snaps[k], accesses[k])
  {
    hide IsRun, Misses, Lost, Sends, Core.Stationary;
    errs, values, snaps := [], [], [];
    var idcode;
    err, idcode := l.SessionBegin(gpio);
    if err == NoError {
      errs, values, snaps := RunAccesses(l, accesses);
    }
  }

  // ---- it happens ----------------------------------------------------------------------------

  /** Two writes on a working session whose wire garbles one single answer: the confirmation of
      the first write's address. The first fails, the second succeeds, and the second register's
      value has gone to the first register. */
  method WrongRegister(l: Link, cached: int, reg: int, v: Word, w: Word) returns (first: Error, second: Error)
    requires l.Valid() && 0 <= cached < 0x80 && 0 <= reg < 0x80 && cached != reg
    requires CoreOf(l.dap).Stationary() && l.apTar == l.dap.tar == 4 * cached && l.Open(AP_TAR)
    requires Heard(l.dap) && Heard(l.dap.(ticks := l.dap.ticks + 2))
    requires l.dap.line(l.dap.ticks + 1).badParity && !l.dap.line(l.dap.ticks + 3).badParity
    modifies l`dap, l`dpSelect, l`apTar
    ensures first != NoError && second == NoError
    ensures old(l.dap.dm.dev).Shaped() && l.dap.dm == DmiWrite(old(l.dap.dm), reg, w)
  {
    hide Core.Stationary, DmiWrite, AccessStep, Device.Shaped, Link.Coherent, Link.OnTarget;
    first := l.DmiWriteRegister(reg, v);
    ghost var aimed := CoreOf(l.dap);
    AccessInCore(aimed, w);
    second := l.DmiWriteRegister(cached, w);
  }
}
