/** Who may have the memory card and the cartridge: update jobs, USB pass-through and burn
    tasks, started and stopped by any number of concurrent callers. Every step below is one
    access to shared state; a flag or lock that someone has taken carries its owner along. */
module Handoff {

  datatype Owner = Nobody | Caller(who: nat) | JobTask | BurnTask

  /** Where a caller is. A name with Wait is a blocked lock request. */
  datatype Pc = Idle | Start(at: StartPc) | Usb(sw: UsbPc) | Burn(bn: BurnStartPc)

  /** Starting an update job. */
  datatype StartPc =
    | StartWaitStatus | StartWaitJob | StartCheck | StartFlagged | StartUsbClear | StartRefuse
    | StartAccepted | StartUnlockJob(ok: bool) | StartUnlockStatus(ok: bool) | StartNotify

  /** Switching USB pass-through. */
  datatype UsbPc =
    | UsbWait(on: bool) | UsbHeld(on: bool) | UsbRaised | UsbWaitJob | UsbReading | UsbSeen(running: bool)
    | UsbInstalling | UsbLowering | UsbRemoving | UsbUnlock

  /** Starting a burn task. */
  datatype BurnStartPc =
    | BurnWaitStatus | BurnHeld | BurnWaitJob | BurnReading | BurnSeen(running: bool) | BurnDecide(running: bool)
    | BurnUnlock(ok: bool) | BurnCreating | BurnWaitClear | BurnClearing

  datatype JobPc = JobSleeping | JobWaitCopy | JobCopying | JobRunning | JobWaitEnd | JobEnding

  datatype BurnPc = NoBurn | Burning | BurnWaitEnd | BurnEnding

  datatype Shared = Shared(
    job: JobPc, burn: BurnPc, notified: bool,
    statusLock: Owner, jobLock: Owner, usbLock: Owner,
    running: Owner,       // s_job_running, and who raised it
    starting: Owner,      // s_burn_starting
    enabled: bool,        // s_usb_msc_enabled
    installed: bool)      // s_usb_msc_driver_installed

  datatype State = State(callers: seq<Pc>, sh: Shared)

  datatype Call = StartJob | Enable | Disable | StartBurn(needsCard: bool)

  /** The environment's part of a step: which call to make, and whether the outside
      operation of this step works; a lock request with a time limit works when it is granted. */
  datatype Choice = Choice(call: Call, works: bool)

  datatype Move = CallerMove(i: nat, c: Choice) | JobMove | BurnMove

  function Init(n: nat): State {
    State(seq(n, i => Idle), Shared(JobSleeping, NoBurn, false, Nobody, Nobody, Nobody, Nobody, Nobody, false, false))
  }

  // ---- steps -----------------------------------------------------------------------------------------

  predicate MayStart(sh: Shared, at: StartPc) {
    (at.StartWaitStatus? ==> sh.statusLock == Nobody) && (at.StartWaitJob? ==> sh.jobLock == Nobody)
  }

  function StartStep(sh: Shared, i: nat, at: StartPc): (Shared, Pc) {
    match at
    case StartWaitStatus => (sh.(statusLock := Caller(i)), Start(StartWaitJob))
    case StartWaitJob => (sh.(jobLock := Caller(i)), Start(StartCheck))
    case StartCheck =>
      if sh.running != Nobody then (sh, Start(StartUnlockJob(false))) else (sh.(running := Caller(i)), Start(StartFlagged))
    case StartFlagged => (sh, Start(if sh.enabled then StartRefuse else StartUsbClear))
    case StartUsbClear => (sh, Start(if sh.starting != Nobody || sh.burn != NoBurn then StartRefuse else StartAccepted))
    case StartRefuse => (sh.(running := Nobody), Start(StartUnlockJob(false)))
    case StartAccepted => (sh, Start(StartUnlockJob(true)))
    case StartUnlockJob(ok) => (sh.(jobLock := Nobody), Start(StartUnlockStatus(ok)))
    case StartUnlockStatus(ok) => (sh.(statusLock := Nobody), if ok then Start(StartNotify) else Idle)
    case StartNotify => (sh.(notified := true, running := JobTask), Idle)
  }

  predicate MaySwitch(sh: Shared, sw: UsbPc, works: bool) {
    (sw.UsbWait? && works ==> sh.usbLock == Nobody) && (sw.UsbWaitJob? ==> sh.jobLock == Nobody)
  }

  function UsbStep(sh: Shared, i: nat, sw: UsbPc, works: bool): (Shared, Pc) {
    match sw
    case UsbWait(on) => if works then (sh.(usbLock := Caller(i)), Usb(UsbHeld(on))) else (sh, Idle)
    case UsbHeld(on) =>
      if on == sh.enabled then (sh, Usb(UsbUnlock))
      else if on then (sh.(enabled := true), Usb(UsbRaised))
      else (sh, Usb(UsbRemoving))
    case UsbRaised => (sh, Usb(UsbWaitJob))
    case UsbWaitJob => (sh.(jobLock := Caller(i)), Usb(UsbReading))
    case UsbReading => (sh, Usb(UsbSeen(sh.running != Nobody)))
    case UsbSeen(running) => (sh.(jobLock := Nobody), Usb(if running then UsbLowering else UsbInstalling))
    case UsbInstalling => if works then (sh.(installed := true), Usb(UsbUnlock)) else (sh, Usb(UsbLowering))
    case UsbLowering => (sh.(enabled := false), Usb(UsbUnlock))
    case UsbRemoving => if works then (sh.(installed := false), Usb(UsbLowering)) else (sh, Usb(UsbUnlock))
    case UsbUnlock => (sh.(usbLock := Nobody), Idle)
  }

  predicate MayBurn(sh: Shared, bn: BurnStartPc) {
    (bn.BurnWaitStatus? || bn.BurnWaitClear? ==> sh.statusLock == Nobody) && (bn.BurnWaitJob? ==> sh.jobLock == Nobody)
  }

  function BurnStep(sh: Shared, i: nat, bn: BurnStartPc, works: bool): (Shared, Pc) {
    match bn
    case BurnWaitStatus => (sh.(statusLock := Caller(i)), Burn(BurnHeld))
    case BurnHeld => (sh, Burn(if sh.starting != Nobody || sh.burn != NoBurn then BurnUnlock(false) else BurnWaitJob))
    case BurnWaitJob => (sh.(jobLock := Caller(i)), Burn(BurnReading))
    case BurnReading => (sh, Burn(BurnSeen(sh.running != Nobody)))
    case BurnSeen(running) => (sh.(jobLock := Nobody), Burn(BurnDecide(running)))
    case BurnDecide(running) =>
      if running then (sh, Burn(BurnUnlock(false))) else (sh.(starting := Caller(i)), Burn(BurnUnlock(true)))
    case BurnUnlock(ok) => (sh.(statusLock := Nobody), if ok then Burn(BurnCreating) else Idle)
    case BurnCreating => (if works then sh.(burn := Burning) else sh, Burn(BurnWaitClear))
    case BurnWaitClear => (sh.(statusLock := Caller(i)), Burn(BurnClearing))
    case BurnClearing => (sh.(statusLock := Nobody, starting := Nobody), Idle)
  }

  /** A new call; a burn that needs the card first looks at the USB flag. */
  function Begin(sh: Shared, call: Call): Pc {
    match call
    case StartJob => Start(StartWaitStatus)
    case Enable => Usb(UsbWait(true))
    case Disable => Usb(UsbWait(false))
    case StartBurn(needsCard) => if needsCard && sh.enabled then Idle else Burn(BurnWaitStatus)
  }

  predicate MayMove(sh: Shared, pc: Pc, c: Choice) {
    match pc
    case Idle => true
    case Start(at) => MayStart(sh, at)
    case Usb(sw) => MaySwitch(sh, sw, c.works)
    case Burn(bn) => MayBurn(sh, bn)
  }

  function CallerStep(sh: Shared, i: nat, pc: Pc, c: Choice): (Shared, Pc) {
    match pc
    case Idle => (sh, Begin(sh, c.call))
    case Start(at) => StartStep(sh, i, at)
    case Usb(sw) => UsbStep(sh, i, sw, c.works)
    case Burn(bn) => BurnStep(sh, i, bn, c.works)
  }

  predicate JobMay(sh: Shared) {
    match sh.job
    case JobSleeping => sh.notified
    case JobWaitCopy => sh.jobLock == Nobody
    case JobWaitEnd => sh.jobLock == Nobody
    case _ => true
  }

  function JobStep(sh: Shared): Shared {
    match sh.job
    case JobSleeping => sh.(job := JobWaitCopy, notified := false)
    case JobWaitCopy => sh.(job := JobCopying, jobLock := JobTask)
    case JobCopying => sh.(job := JobRunning, jobLock := Nobody)
    case JobRunning => sh.(job := JobWaitEnd)
    case JobWaitEnd => sh.(job := JobEnding, jobLock := JobTask)
    case JobEnding => sh.(job := JobSleeping, jobLock := Nobody, running := Nobody)
  }

  predicate BurnMay(sh: Shared) {
    match sh.burn
    case NoBurn => false
    case BurnWaitEnd => sh.statusLock == Nobody
    case _ => true
  }

  function BurnTaskStep(sh: Shared): Shared {
    match sh.burn
    case NoBurn => sh
    case Burning => sh.(burn := BurnWaitEnd)
    case BurnWaitEnd => sh.(burn := BurnEnding, statusLock := BurnTask)
    case BurnEnding => sh.(burn := NoBurn, statusLock := Nobody)
  }

  predicate CanMove(s: State, m: Move) {
    match m
    case CallerMove(i, c) => i < |s.callers| && MayMove(s.sh, s.callers[i], c)
    case JobMove => JobMay(s.sh)
    case BurnMove => BurnMay(s.sh)
  }

  function Step(s: State, m: Move): State
    requires CanMove(s, m)
  {
    match m
    case CallerMove(i, c) =>
      var (sh, pc) := CallerStep(s.sh, i, s.callers[i], c);
      State(s.callers[i := pc], sh)
    case JobMove => s.(sh := JobStep(s.sh))
    case BurnMove => s.(sh := BurnTaskStep(s.sh))
  }

  // ---- the invariant -----------------------------------------------------------------------------

  /** What being at a point means for the shared state. */
  datatype Role = Role(
    status: bool, job: bool, usb: bool,  // locks held
    claims: bool,     // has raised the running flag and not handed it on
    creates: bool,    // has raised the starting flag
    lifted: bool,     // the USB flag is up
    quiet: bool,      // the USB driver is not installed
    agreed: bool,     // the USB flag is up exactly when the driver is installed
    alone: bool,      // no burn task is starting or running
    noBurn: bool,     // no burn task is running
    bound: bool,      // past the check of the USB flag
    clear: bool)      // has seen that no job is on its way

  function StartRole(at: StartPc): Role {
    var past := at.StartAccepted? || at == StartUnlockJob(true) || at == StartUnlockStatus(true) || at.StartNotify?;
    Role(
      status := !at.StartWaitStatus? && !at.StartNotify?,
      job := !at.StartWaitStatus? && !at.StartWaitJob? && !at.StartUnlockStatus? && !at.StartNotify?,
      usb := false,
      claims := at.StartFlagged? || at.StartUsbClear? || at.StartRefuse? || past,
      creates := false,
      lifted := false,
      quiet := at.StartUsbClear? || past,
      agreed := false,
      alone := past,
      noBurn := false,
      bound := at.StartUsbClear? || past,
      clear := false)
  }

  function UsbRole(sw: UsbPc): Role {
    var up := sw.UsbRaised? || sw.UsbWaitJob? || sw.UsbReading? || sw.UsbSeen? || sw.UsbInstalling? || sw.UsbLowering?;
    Role(
      status := false,
      job := sw.UsbReading? || sw.UsbSeen?,
      usb := !sw.UsbWait?,
      claims := false,
      creates := false,
      lifted := up || sw.UsbRemoving?,
      quiet := up,
      agreed := sw.UsbHeld? || sw.UsbRemoving? || sw.UsbUnlock?,
      alone := false,
      noBurn := false,
      bound := false,
      clear := sw == UsbSeen(false) || sw.UsbInstalling?)
  }

  function BurnRole(bn: BurnStartPc): Role {
    var checked := bn.BurnWaitJob? || bn.BurnReading? || bn.BurnSeen? || bn.BurnDecide?;
    Role(
      status := checked || bn.BurnHeld? || bn.BurnUnlock? || bn.BurnClearing?,
      job := bn.BurnReading? || bn.BurnSeen?,
      usb := false,
      claims := false,
      creates := bn == BurnUnlock(true) || bn.BurnCreating? || bn.BurnWaitClear? || bn.BurnClearing?,
      lifted := false,
      quiet := false,
      agreed := false,
      alone := checked,
      noBurn := bn == BurnUnlock(true) || bn.BurnCreating?,
      bound := false,
      clear := bn == BurnSeen(false) || bn == BurnDecide(false))
  }

  function RoleOf(pc: Pc): Role {
    match pc
    case Idle => Role(false, false, false, false, false, false, false, false, false, false, false, false)
    case Start(at) => StartRole(at)
    case Usb(sw) => UsbRole(sw)
    case Burn(bn) => BurnRole(bn)
  }

  ghost predicate Fits(sh: Shared, i: nat, r: Role) { FitsLocks(sh, i, r) && FitsFlags(sh, i, r) }

  ghost predicate FitsLocks(sh: Shared, i: nat, r: Role) {
    && (r.status <==> sh.statusLock == Caller(i))
    && (r.job <==> sh.jobLock == Caller(i))
    && (r.usb <==> sh.usbLock == Caller(i))
  }

  ghost predicate FitsFlags(sh: Shared, i: nat, r: Role) {
    && (r.claims <==> sh.running == Caller(i))
    && (r.creates <==> sh.starting == Caller(i))
    && (r.lifted ==> sh.enabled)
    && (r.quiet ==> !sh.installed)
    && (r.agreed ==> sh.enabled == sh.installed)
    && (r.alone ==> sh.starting == Nobody && sh.burn == NoBurn)
    && (r.noBurn ==> sh.burn == NoBurn)
    && (r.clear ==> sh.running != JobTask)
  }

  /** How the parts of a role hang together. */
  ghost predicate Sensible(r: Role) {
    && (r.bound ==> r.claims && r.quiet)
    && (r.noBurn ==> r.creates)
    && (r.lifted || r.agreed ==> r.usb)
    && (r.quiet ==> r.bound || (r.usb && r.lifted))
    && (r.clear ==> (r.usb && r.lifted) || (r.status && r.alone))
    && (r.alone ==> r.status || r.bound)
  }

  lemma RolesSensible(pc: Pc)
    ensures Sensible(RoleOf(pc))
  {}

  /** Nobody has seen that no job is on its way while one is. */
  predicate Compatible(a: Role, b: Role) { !(a.clear && b.bound) && !(b.clear && a.bound) }

  ghost predicate TasksOk(sh: Shared) {
    && (sh.installed ==> sh.enabled)
    && (sh.usbLock == Nobody ==> sh.enabled == sh.installed)
    && (sh.running == JobTask <==> sh.notified || sh.job != JobSleeping)
    && (sh.notified ==> sh.job == JobSleeping)
    && (sh.job == JobCopying || sh.job == JobEnding <==> sh.jobLock == JobTask)
    && (sh.burn == BurnEnding <==> sh.statusLock == BurnTask)
    && (sh.running == JobTask ==> !sh.installed && sh.starting == Nobody && sh.burn == NoBurn)
    && (sh.usbLock == Nobody || sh.usbLock.Caller?) && sh.jobLock != BurnTask && sh.statusLock != JobTask
    && sh.running != BurnTask && (sh.starting == Nobody || sh.starting.Caller?)
  }

  lemma StartSelf(sh: Shared, i: nat, at: StartPc)
    requires MayStart(sh, at) && TasksOk(sh) && Fits(sh, i, StartRole(at))
    ensures var (sh', pc) := StartStep(sh, i, at); TasksOk(sh') && Fits(sh', i, RoleOf(pc))
  {
    hide StartRole, StartStep, TasksOk, RoleOf, FitsLocks, FitsFlags;
    StartTasks(sh, i, at);
    StartLocks(sh, i, at);
    StartFlags(sh, i, at);
  }

  lemma StartLocks(sh: Shared, i: nat, at: StartPc)
    requires MayStart(sh, at) && FitsLocks(sh, i, StartRole(at))
    ensures var (sh', pc) := StartStep(sh, i, at); FitsLocks(sh', i, RoleOf(pc))
  {
    hide UsbRole, BurnRole;
  }

  lemma StartFlags(sh: Shared, i: nat, at: StartPc)
    requires MayStart(sh, at) && TasksOk(sh) && FitsFlags(sh, i, StartRole(at)) && FitsLocks(sh, i, StartRole(at))
    ensures var (sh', pc) := StartStep(sh, i, at); FitsFlags(sh', i, RoleOf(pc))
  {
    hide UsbRole, BurnRole, TasksOk;
    TasksPart(sh);
  }

  lemma StartTasks(sh: Shared, i: nat, at: StartPc)
    requires MayStart(sh, at) && TasksOk(sh) && Fits(sh, i, StartRole(at))
    ensures TasksOk(StartStep(sh, i, at).0)
  {}

  lemma StartOther(sh: Shared, i: nat, at: StartPc, j: nat, r: Role)
    requires MayStart(sh, at) && TasksOk(sh) && Fits(sh, i, StartRole(at)) && Fits(sh, j, r) && Sensible(r) && i != j
    requires Compatible(StartRole(at), r)
    ensures var (sh', pc) := StartStep(sh, i, at); Fits(sh', j, r) && Compatible(RoleOf(pc), r)
  {
    hide UsbRole, BurnRole;
  }

  lemma UsbSelf(sh: Shared, i: nat, sw: UsbPc, works: bool)
    requires MaySwitch(sh, sw, works) && TasksOk(sh) && Fits(sh, i, UsbRole(sw))
    ensures var (sh', pc) := UsbStep(sh, i, sw, works); TasksOk(sh') && Fits(sh', i, RoleOf(pc))
  {
    hide UsbRole, UsbStep, TasksOk, RoleOf, FitsLocks, FitsFlags;
    UsbTasks(sh, i, sw, works);
    UsbLocks(sh, i, sw, works);
    UsbFlags(sh, i, sw, works);
  }

  lemma UsbLocks(sh: Shared, i: nat, sw: UsbPc, works: bool)
    requires MaySwitch(sh, sw, works) && FitsLocks(sh, i, UsbRole(sw))
    ensures var (sh', pc) := UsbStep(sh, i, sw, works); FitsLocks(sh', i, RoleOf(pc))
  {
    hide StartRole, BurnRole;
  }

  lemma UsbFlags(sh: Shared, i: nat, sw: UsbPc, works: bool)
    requires MaySwitch(sh, sw, works) && TasksOk(sh) && FitsFlags(sh, i, UsbRole(sw)) && FitsLocks(sh, i, UsbRole(sw))
    ensures var (sh', pc) := UsbStep(sh, i, sw, works); FitsFlags(sh', i, RoleOf(pc))
  {
    hide StartRole, BurnRole, TasksOk;
    TasksPart(sh);
  }

  lemma UsbTasks(sh: Shared, i: nat, sw: UsbPc, works: bool)
    requires MaySwitch(sh, sw, works) && TasksOk(sh) && Fits(sh, i, UsbRole(sw))
    ensures TasksOk(UsbStep(sh, i, sw, works).0)
  {}

  lemma UsbOther(sh: Shared, i: nat, sw: UsbPc, works: bool, j: nat, r: Role)
    requires MaySwitch(sh, sw, works) && TasksOk(sh) && Fits(sh, i, UsbRole(sw)) && Fits(sh, j, r) && Sensible(r) && i != j
    requires Compatible(UsbRole(sw), r)
    ensures var (sh', pc) := UsbStep(sh, i, sw, works); Fits(sh', j, r) && Compatible(RoleOf(pc), r)
  {
    hide StartRole, BurnRole;
  }

  lemma BurnSelf(sh: Shared, i: nat, bn: BurnStartPc, works: bool)
    requires MayBurn(sh, bn) && TasksOk(sh) && Fits(sh, i, BurnRole(bn))
    ensures var (sh', pc) := BurnStep(sh, i, bn, works); TasksOk(sh') && Fits(sh', i, RoleOf(pc))
  {
    hide BurnRole, BurnStep, TasksOk, RoleOf, FitsLocks, FitsFlags;
    BurnTasks(sh, i, bn, works);
    BurnLocks(sh, i, bn, works);
    BurnFlags(sh, i, bn, works);
  }

  lemma BurnLocks(sh: Shared, i: nat, bn: BurnStartPc, works: bool)
    requires MayBurn(sh, bn) && FitsLocks(sh, i, BurnRole(bn))
    ensures var (sh', pc) := BurnStep(sh, i, bn, works); FitsLocks(sh', i, RoleOf(pc))
  {
    hide UsbRole, StartRole;
  }

  lemma BurnFlags(sh: Shared, i: nat, bn: BurnStartPc, works: bool)
    requires MayBurn(sh, bn) && TasksOk(sh) && FitsFlags(sh, i, BurnRole(bn)) && FitsLocks(sh, i, BurnRole(bn))
    ensures var (sh', pc) := BurnStep(sh, i, bn, works); FitsFlags(sh', i, RoleOf(pc))
  {
    hide UsbRole, StartRole, TasksOk;
    TasksPart(sh);
  }

  lemma BurnTasks(sh: Shared, i: nat, bn: BurnStartPc, works: bool)
    requires MayBurn(sh, bn) && TasksOk(sh) && Fits(sh, i, BurnRole(bn))
    ensures TasksOk(BurnStep(sh, i, bn, works).0)
  {}

  lemma TasksPart(sh: Shared)
    requires TasksOk(sh)
    ensures sh.running == JobTask ==> sh.starting == Nobody && sh.burn == NoBurn
    ensures sh.installed ==> sh.enabled
    ensures sh.usbLock == Nobody ==> sh.enabled == sh.installed
  {}

  lemma BurnOther(sh: Shared, i: nat, bn: BurnStartPc, works: bool, j: nat, r: Role)
    requires MayBurn(sh, bn) && TasksOk(sh) && Fits(sh, i, BurnRole(bn)) && Fits(sh, j, r) && Sensible(r) && i != j
    requires Compatible(BurnRole(bn), r)
    ensures var (sh', pc) := BurnStep(sh, i, bn, works); Fits(sh', j, r) && Compatible(RoleOf(pc), r)
  {
    hide BurnRole, BurnStep, RoleOf, FitsLocks, FitsFlags, TasksOk, Compatible, Sensible;
    BurnOtherLocks(sh, i, bn, works, j, r);
    BurnOtherFlags(sh, i, bn, works, j, r);
    BoundRuns(sh, j, r);
    BurnCompatible(sh, i, bn, works, r);
  }

  lemma BurnOtherLocks(sh: Shared, i: nat, bn: BurnStartPc, works: bool, j: nat, r: Role)
    requires MayBurn(sh, bn) && FitsLocks(sh, i, BurnRole(bn)) && FitsLocks(sh, j, r) && i != j
    ensures FitsLocks(BurnStep(sh, i, bn, works).0, j, r)
  {}

  lemma BurnOtherFlags(sh: Shared, i: nat, bn: BurnStartPc, works: bool, j: nat, r: Role)
    requires MayBurn(sh, bn) && TasksOk(sh) && Fits(sh, i, BurnRole(bn)) && Fits(sh, j, r) && Sensible(r) && i != j
    requires Compatible(BurnRole(bn), r)
    ensures FitsFlags(BurnStep(sh, i, bn, works).0, j, r)
  {}

  lemma BoundRuns(sh: Shared, j: nat, r: Role)
    requires Fits(sh, j, r) && Sensible(r)
    ensures r.bound ==> sh.running != Nobody
  {}

  lemma BurnCompatible(sh: Shared, i: nat, bn: BurnStartPc, works: bool, r: Role)
    requires TasksOk(sh) && Fits(sh, i, BurnRole(bn)) && Compatible(BurnRole(bn), r)
    requires r.bound ==> sh.running != Nobody
    ensures Compatible(RoleOf(BurnStep(sh, i, bn, works).1), r)
  {
    hide UsbRole, StartRole;
  }

  lemma TaskMoves(sh: Shared, j: nat, r: Role)
    requires TasksOk(sh) && Fits(sh, j, r) && Sensible(r)
    ensures JobMay(sh) ==> Fits(JobStep(sh), j, r)
    ensures BurnMay(sh) ==> Fits(BurnTaskStep(sh), j, r)
  {}

  lemma TasksMove(sh: Shared)
    requires TasksOk(sh)
    ensures JobMay(sh) ==> TasksOk(JobStep(sh))
    ensures BurnMay(sh) ==> TasksOk(BurnTaskStep(sh))
  {}

  lemma CallerSelf(sh: Shared, i: nat, pc: Pc, c: Choice)
    requires MayMove(sh, pc, c) && TasksOk(sh) && Fits(sh, i, RoleOf(pc))
    ensures var (sh', pc') := CallerStep(sh, i, pc, c); TasksOk(sh') && Fits(sh', i, RoleOf(pc'))
  {
    hide StartRole, UsbRole, BurnRole, StartStep, UsbStep, BurnStep;
    match pc
    case Idle => Beginning(sh, c.call);
    case Start(at) => StartSelf(sh, i, at);
    case Usb(sw) => UsbSelf(sh, i, sw, c.works);
    case Burn(bn) => BurnSelf(sh, i, bn, c.works);
  }

  lemma Beginning(sh: Shared, call: Call)
    ensures RoleOf(Begin(sh, call)) == RoleOf(Idle)
  {}

  lemma CallerOther(sh: Shared, i: nat, pc: Pc, c: Choice, j: nat, r: Role)
    requires MayMove(sh, pc, c) && TasksOk(sh) && Fits(sh, i, RoleOf(pc)) && Fits(sh, j, r) && Sensible(r) && i != j
    requires Compatible(RoleOf(pc), r)
    ensures var (sh', pc') := CallerStep(sh, i, pc, c); Fits(sh', j, r) && Compatible(RoleOf(pc'), r)
  {
    hide StartRole, UsbRole, BurnRole, StartStep, UsbStep, BurnStep;
    match pc
    case Idle => Beginning(sh, c.call);
    case Start(at) => StartOther(sh, i, at, j, r);
    case Usb(sw) => UsbOther(sh, i, sw, c.works, j, r);
    case Burn(bn) => BurnOther(sh, i, bn, c.works, j, r);
  }

  ghost predicate Inv(s: State) {
    && TasksOk(s.sh)
    && (forall i | 0 <= i < |s.callers| :: Fits(s.sh, i, RoleOf(s.callers[i])))
    && (forall i, j | 0 <= i < |s.callers| && 0 <= j < |s.callers| && i != j ::
         Compatible(RoleOf(s.callers[i]), RoleOf(s.callers[j])))
    && OwnersExist(s.sh, |s.callers|)
  }

  predicate Exists(o: Owner, n: nat) { o.Caller? ==> o.who < n }

  ghost predicate OwnersExist(sh: Shared, n: nat) {
    Exists(sh.statusLock, n) && Exists(sh.jobLock, n) && Exists(sh.usbLock, n) && Exists(sh.running, n) && Exists(sh.starting, n)
  }

  lemma InitInv(n: nat)
    ensures Inv(Init(n))
  {}

  lemma OwnersStay(sh: Shared, i: nat, pc: Pc, c: Choice, n: nat)
    requires OwnersExist(sh, n) && i < n
    ensures OwnersExist(CallerStep(sh, i, pc, c).0, n)
  {
    hide StartStep, UsbStep, BurnStep, OwnersExist, Begin;
    match pc
    case Idle =>
    case Start(at) => StartOwners(sh, i, at, n);
    case Usb(sw) => UsbOwners(sh, i, sw, c.works, n);
    case Burn(bn) => BurnOwners(sh, i, bn, c.works, n);
  }

  lemma StartOwners(sh: Shared, i: nat, at: StartPc, n: nat)
    requires OwnersExist(sh, n) && i < n
    ensures OwnersExist(StartStep(sh, i, at).0, n)
  {}

  lemma UsbOwners(sh: Shared, i: nat, sw: UsbPc, works: bool, n: nat)
    requires OwnersExist(sh, n) && i < n
    ensures OwnersExist(UsbStep(sh, i, sw, works).0, n)
  {}

  lemma BurnOwners(sh: Shared, i: nat, bn: BurnStartPc, works: bool, n: nat)
    requires OwnersExist(sh, n) && i < n
    ensures OwnersExist(BurnStep(sh, i, bn, works).0, n)
  {}

  /** Every step of anyone keeps the invariant. */
  lemma StepInv(s: State, m: Move)
    requires Inv(s) && CanMove(s, m)
    ensures Inv(Step(s, m))
  {
    hide RoleOf, Fits, TasksOk, CallerStep, MayMove, Compatible, Sensible, JobStep, BurnTaskStep, JobMay, BurnMay, OwnersExist;
    var s' := Step(s, m);
    forall j | 0 <= j < |s.callers| ensures Sensible(RoleOf(s.callers[j])) {
      RolesSensible(s.callers[j]);
    }
    match m
    case CallerMove(i, c) =>
      CallerSelf(s.sh, i, s.callers[i], c);
      OwnersStay(s.sh, i, s.callers[i], c, |s.callers|);
      forall j | 0 <= j < |s.callers| && j != i
        ensures Fits(s'.sh, j, RoleOf(s.callers[j])) && Compatible(RoleOf(s'.callers[i]), RoleOf(s.callers[j]))
        ensures Compatible(RoleOf(s.callers[j]), RoleOf(s'.callers[i]))
      {
        CallerOther(s.sh, i, s.callers[i], c, j, RoleOf(s.callers[j]));
        CompatibleBoth(RoleOf(s'.callers[i]), RoleOf(s.callers[j]));
      }
    case _ =>
      TasksMove(s.sh);
      TaskOwners(s.sh, |s.callers|);
      forall j | 0 <= j < |s.callers| ensures Fits(s'.sh, j, RoleOf(s.callers[j])) {
        TaskMoves(s.sh, j, RoleOf(s.callers[j]));
      }
  }

  lemma CompatibleBoth(a: Role, b: Role)
    requires Compatible(a, b)
    ensures Compatible(b, a)
  {}

  lemma TaskOwners(sh: Shared, n: nat)
    requires OwnersExist(sh, n)
    ensures OwnersExist(JobStep(sh), n) && OwnersExist(BurnTaskStep(sh), n)
  {}

  // ---- whole runs -------------------------------------------------------------------------------------

  /** Any schedule of any calls, first to last; a move that cannot be made is passed over. */
  function Run(s: State, moves: seq<Move>): State
    decreases |moves|
  {
    if moves == [] then s else Run(if CanMove(s, moves[0]) then Step(s, moves[0]) else s, moves[1..])
  }

  lemma {:induction false} RunInv(s: State, moves: seq<Move>)
    requires Inv(s)
    ensures Inv(Run(s, moves))
    decreases |moves|
  {
    hide Inv, Step, CanMove;
    if moves != [] {
      if CanMove(s, moves[0]) {
        StepInv(s, moves[0]);
        RunInv(Step(s, moves[0]), moves[1..]);
      } else {
        RunInv(s, moves[1..]);
      }
    }
  }

  /** Handing the card to the USB driver, or taking it back. */
  predicate SwitchesCard(pc: Pc) { pc == Usb(UsbInstalling) || pc == Usb(UsbRemoving) }

  lemma SwitchingRole(sh: Shared, i: nat, pc: Pc)
    requires TasksOk(sh) && Fits(sh, i, RoleOf(pc)) && SwitchesCard(pc)
    ensures sh.job == JobSleeping
  {}

  /** In every reachable state: an update job at work has the card to itself, with no burn task
      beside it and nobody installing or removing the driver; and whenever the USB lock is
      free, the USB flag is up exactly when the driver is installed. */
  lemma Exclusive(n: nat, moves: seq<Move>)
    ensures var s := Run(Init(n), moves);
      && (s.sh.job != JobSleeping ==> !s.sh.installed && s.sh.burn == NoBurn && s.sh.starting == Nobody)
      && (s.sh.job != JobSleeping ==> forall i | 0 <= i < |s.callers| :: !SwitchesCard(s.callers[i]))
      && (s.sh.installed ==> s.sh.enabled)
      && (s.sh.usbLock == Nobody ==> s.sh.enabled == s.sh.installed)
  {
    hide Run, SwitchesCard, Fits, RoleOf;
    InitInv(n);
    RunInv(Init(n), moves);
    var s := Run(Init(n), moves);
    forall i | 0 <= i < |s.callers| && SwitchesCard(s.callers[i]) ensures s.sh.job == JobSleeping {
      SwitchingRole(s.sh, i, s.callers[i]);
    }
  }

  // ---- no deadlock ------------------------------------------------------------------------------------

  /** Steps left, tasks this caller may yet set off included. */
  function Left(pc: Pc): nat {
    match pc
    case Idle => 0
    case Start(at) => StartLeft(at)
    case Usb(sw) => UsbLeft(sw)
    case Burn(bn) => BurnLeft(bn)
  }

  function StartLeft(at: StartPc): nat {
    match at
    case StartWaitStatus => 15
    case StartWaitJob => 14
    case StartCheck => 13
    case StartFlagged => 12
    case StartUsbClear => 11
    case StartRefuse => 10
    case StartAccepted => 10
    case StartUnlockJob(_) => 9
    case StartUnlockStatus(_) => 8
    case StartNotify => 7
  }

  function UsbLeft(sw: UsbPc): nat {
    match sw
    case UsbWait(_) => 9
    case UsbHeld(_) => 8
    case UsbRaised => 7
    case UsbWaitJob => 6
    case UsbReading => 5
    case UsbSeen(_) => 4
    case UsbInstalling => 3
    case UsbRemoving => 3
    case UsbLowering => 2
    case UsbUnlock => 1
  }

  function BurnLeft(bn: BurnStartPc): nat {
    match bn
    case BurnWaitStatus => 13
    case BurnHeld => 12
    case BurnWaitJob => 11
    case BurnReading => 10
    case BurnSeen(_) => 9
    case BurnDecide(_) => 8
    case BurnUnlock(_) => 7
    case BurnCreating => 6
    case BurnWaitClear => 2
    case BurnClearing => 1
  }

  function TasksLeft(sh: Shared): nat {
    (if sh.notified then 6 else 0)
    + (match sh.job
       case JobSleeping => 0 case JobWaitCopy => 5 case JobCopying => 4 case JobRunning => 3 case JobWaitEnd => 2 case JobEnding => 1)
    + (match sh.burn case NoBurn => 0 case Burning => 3 case BurnWaitEnd => 2 case BurnEnding => 1)
  }

  function CallersLeft(pcs: seq<Pc>): nat {
    if pcs == [] then 0 else Left(pcs[0]) + CallersLeft(pcs[1..])
  }

  function Work(s: State): nat { CallersLeft(s.callers) + TasksLeft(s.sh) }

  lemma {:induction false} OneCallerMoved(pcs: seq<Pc>, i: nat, pc: Pc)
    requires i < |pcs|
    ensures CallersLeft(pcs[i := pc]) == CallersLeft(pcs) - Left(pcs[i]) + Left(pc)
  {
    hide Left;
    if i == 0 {
      assert pcs[i := pc][1..] == pcs[1..];
    } else {
      OneCallerMoved(pcs[1..], i - 1, pc);
      assert pcs[i := pc][1..] == pcs[1..][i - 1 := pc];
    }
  }

  predicate NewCall(s: State, m: Move) { m.CallerMove? && m.i < |s.callers| && s.callers[m.i] == Idle }

  lemma CallerWorks(sh: Shared, i: nat, pc: Pc, c: Choice)
    requires pc != Idle && Fits(sh, i, RoleOf(pc)) && TasksOk(sh)
    ensures var (sh', pc') := CallerStep(sh, i, pc, c); Left(pc') + TasksLeft(sh') < Left(pc) + TasksLeft(sh)
  {
    hide Fits, TasksOk, StartStep, UsbStep, BurnStep, StartLeft, UsbLeft, BurnLeft, TasksLeft;
    match pc
    case Start(at) => StartWorks(sh, i, at);
    case Usb(sw) => UsbWorks(sh, i, sw, c.works);
    case Burn(bn) => BurnWorks(sh, i, bn, c.works);
  }

  lemma StartWorks(sh: Shared, i: nat, at: StartPc)
    requires Fits(sh, i, StartRole(at)) && TasksOk(sh)
    ensures var (sh', pc') := StartStep(sh, i, at); Left(pc') + TasksLeft(sh') < StartLeft(at) + TasksLeft(sh)
  {
    hide Fits, TasksOk, UsbLeft, BurnLeft;
    NotifyOnce(sh, i, at);
  }

  lemma UsbWorks(sh: Shared, i: nat, sw: UsbPc, works: bool)
    ensures var (sh', pc') := UsbStep(sh, i, sw, works); Left(pc') + TasksLeft(sh') < UsbLeft(sw) + TasksLeft(sh)
  {
    hide StartLeft, BurnLeft;
  }

  lemma BurnWorks(sh: Shared, i: nat, bn: BurnStartPc, works: bool)
    requires Fits(sh, i, BurnRole(bn))
    ensures var (sh', pc') := BurnStep(sh, i, bn, works); Left(pc') + TasksLeft(sh') < BurnLeft(bn) + TasksLeft(sh)
  {
    hide Fits, StartLeft, UsbLeft;
    BurnOnce(sh, i, bn);
  }

  lemma NotifyOnce(sh: Shared, i: nat, at: StartPc)
    requires Fits(sh, i, StartRole(at)) && TasksOk(sh)
    ensures at.StartNotify? ==> !sh.notified
  {}

  lemma BurnOnce(sh: Shared, i: nat, bn: BurnStartPc)
    requires Fits(sh, i, BurnRole(bn))
    ensures bn.BurnCreating? ==> sh.burn == NoBurn
  {}

  /** Every move that is not a new call uses up work. */
  lemma WorkShrinks(s: State, m: Move)
    requires Inv(s) && CanMove(s, m) && !NewCall(s, m)
    ensures Work(Step(s, m)) < Work(s)
  {
    hide Left, TasksLeft, RoleOf, CallerStep, JobStep, BurnTaskStep, TasksOk, Fits, Compatible, JobMay, BurnMay, MayMove;
    match m
    case CallerMove(i, c) =>
      var (sh, pc) := CallerStep(s.sh, i, s.callers[i], c);
      CallerWorks(s.sh, i, s.callers[i], c);
      OneCallerMoved(s.callers, i, pc);
    case _ => TaskWorks(s.sh);
  }

  lemma TaskWorks(sh: Shared)
    ensures JobMay(sh) ==> TasksLeft(JobStep(sh)) < TasksLeft(sh)
    ensures BurnMay(sh) ==> TasksLeft(BurnTaskStep(sh)) < TasksLeft(sh)
  {}

  /** A caller waits for nothing but a lock it does not hold, in one fixed order. */
  lemma Waits(sh: Shared, pc: Pc, c: Choice)
    ensures RoleOf(pc).job ==> pc != Idle && MayMove(sh, pc, c)
    ensures RoleOf(pc).status && sh.jobLock == Nobody ==> pc != Idle && MayMove(sh, pc, c)
    ensures RoleOf(pc).usb && sh.jobLock == Nobody ==> pc != Idle && MayMove(sh, pc, c)
    ensures sh.jobLock == sh.statusLock == sh.usbLock == Nobody ==> MayMove(sh, pc, c)
  {}

  ghost predicate Pending(s: State) {
    s.sh.notified || s.sh.job != JobSleeping || s.sh.burn != NoBurn || exists i :: 0 <= i < |s.callers| && s.callers[i] != Idle
  }

  lemma HolderMoves(s: State, i: nat, c: Choice)
    requires Inv(s) && i < |s.callers|
    requires || s.sh.jobLock == Caller(i)
             || (s.sh.jobLock == Nobody && (s.sh.statusLock == Caller(i) || s.sh.usbLock == Caller(i)))
             || (s.sh.jobLock == s.sh.statusLock == s.sh.usbLock == Nobody && s.callers[i] != Idle)
    ensures CanMove(s, CallerMove(i, c)) && !NewCall(s, CallerMove(i, c))
  {
    hide RoleOf, MayMove, TasksOk, Compatible;
    assert Fits(s.sh, i, RoleOf(s.callers[i]));
    Waits(s.sh, s.callers[i], c);
  }

  /** Whatever is pending, someone can move: no lock order leads into a deadlock. */
  lemma NoDeadlock(s: State)
    requires Inv(s) && Pending(s)
    ensures exists m :: CanMove(s, m) && !NewCall(s, m)
  {
    hide RoleOf, MayMove, Fits, Compatible, CanMove;
    var c := Choice(StartJob, true);
    TaskMovable(s);
    if s.sh.jobLock.Caller? {
      HolderMoves(s, s.sh.jobLock.who, c);
    } else if s.sh.jobLock == JobTask {
    } else if s.sh.statusLock.Caller? {
      HolderMoves(s, s.sh.statusLock.who, c);
    } else if s.sh.statusLock == BurnTask {
    } else if s.sh.usbLock.Caller? {
      HolderMoves(s, s.sh.usbLock.who, c);
    } else if s.sh.notified || s.sh.job != JobSleeping || s.sh.burn != NoBurn {
    } else {
      var i: nat :| i < |s.callers| && s.callers[i] != Idle;
      HolderMoves(s, i, c);
    }
  }

  lemma TaskMovable(s: State)
    requires TasksOk(s.sh)
    ensures s.sh.jobLock == JobTask ==> CanMove(s, JobMove)
    ensures s.sh.statusLock == BurnTask ==> CanMove(s, BurnMove)
    ensures s.sh.jobLock == Nobody && (s.sh.notified || s.sh.job != JobSleeping) ==> CanMove(s, JobMove)
    ensures s.sh.statusLock == Nobody && s.sh.burn != NoBurn ==> CanMove(s, BurnMove)
    ensures !NewCall(s, JobMove) && !NewCall(s, BurnMove)
  {}

  /** If no one starts anything new, everything comes to rest within the work left. */
  lemma {:induction false} ComesToRest(s: State) returns (moves: seq<Move>)
    requires Inv(s)
    ensures |moves| <= Work(s) && !Pending(Run(s, moves))
    decreases Work(s)
  {
    hide Inv, Work, Pending, CanMove, Step, NewCall;
    moves := [];
    if Pending(s) {
      NoDeadlock(s);
      var m :| CanMove(s, m) && !NewCall(s, m);
      WorkShrinks(s, m);
      StepInv(s, m);
      var rest := ComesToRest(Step(s, m));
      moves := [m] + rest;
      assert moves[1..] == rest;
    }
  }
}
