/** What comes of a call on the shared flags and locks: it does what it was made for exactly
    when none of its own looks on the way found a reason against it. */
module HandoffCalls {
  import opened Handoff

  // ---- the course of a run ---------------------------------------------------------------------------

  /** One state after another; a move that cannot be made is passed over. */
  ghost predicate Trail(states: seq<State>, moves: seq<Move>) {
    && |states| == |moves| + 1
    && forall k | 0 <= k < |moves| :: states[k + 1] == Next(states[k], moves[k])
  }

  function Next(s: State, m: Move): State { if CanMove(s, m) then Step(s, m) else s }

  lemma {:induction false} TrailInv(states: seq<State>, moves: seq<Move>, k: nat)
    requires Trail(states, moves) && Inv(states[0]) && k < |states|
    ensures Inv(states[k]) && |states[k].callers| == |states[0].callers|
  {
    hide Inv, CanMove, Step;
    if k > 0 {
      TrailInv(states, moves, k - 1);
      if CanMove(states[k - 1], moves[k - 1]) {
        StepInv(states[k - 1], moves[k - 1]);
        StepCallers(states[k - 1], moves[k - 1]);
      }
    }
  }

  lemma StepCallers(s: State, m: Move)
    requires CanMove(s, m)
    ensures |Step(s, m).callers| == |s.callers|
  {
    hide CallerStep, MayMove;
  }

  // ---- what a call is for, and what speaks against it ---------------------------------------------------

  /** The step did what the call was made for: the job task is notified, the driver is installed
      or removed, the burn task exists. */
  predicate Does(call: Call, before: Shared, after: Shared) {
    match call
    case StartJob => !before.notified && after.notified
    case Enable => !before.installed && after.installed
    case Disable => before.installed && !after.installed
    case StartBurn(_) => before.burn == NoBurn && after.burn == Burning
  }

  /** At this point a call finds a reason against it: someone is at work, the flag is not as the
      call needs it, the lock is not to be had in time, or the outside operation fails. */
  predicate Declines(call: Call, sh: Shared, pc: Pc, works: bool) {
    match call
    case StartJob =>
      || (pc == Start(StartCheck) && sh.running != Nobody)
      || (pc == Start(StartFlagged) && sh.enabled)
      || (pc == Start(StartUsbClear) && (sh.starting != Nobody || sh.burn != NoBurn))
    case Enable =>
      || (pc == Usb(UsbWait(true)) && !works)
      || (pc == Usb(UsbHeld(true)) && sh.enabled)
      || (pc == Usb(UsbReading) && sh.running != Nobody)
      || (pc == Usb(UsbInstalling) && !works)
    case Disable =>
      || (pc == Usb(UsbWait(false)) && !works)
      || (pc == Usb(UsbHeld(false)) && !sh.enabled)
      || (pc == Usb(UsbRemoving) && !works)
    case StartBurn(needsCard) =>
      || (pc == Idle && needsCard && sh.enabled)
      || (pc == Burn(BurnHeld) && (sh.starting != Nobody || sh.burn != NoBurn))
      || (pc == Burn(BurnReading) && sh.running != Nobody)
      || (pc == Burn(BurnCreating) && !works)
  }

  /** Still undecided. */
  predicate Pending(call: Call, pc: Pc) {
    match call
    case StartJob =>
      pc.Start? && !pc.at.StartRefuse? && pc.at != StartUnlockJob(false) && pc.at != StartUnlockStatus(false)
    case Enable =>
      pc.Usb? && (pc.sw == UsbWait(true) || pc.sw == UsbHeld(true) || pc.sw.UsbRaised? || pc.sw.UsbWaitJob? || pc.sw.UsbReading?
                  || pc.sw == UsbSeen(false) || pc.sw.UsbInstalling?)
    case Disable => pc.Usb? && (pc.sw == UsbWait(false) || pc.sw == UsbHeld(false) || pc.sw.UsbRemoving?)
    case StartBurn(_) =>
      pc.Burn? && (pc.bn.BurnWaitStatus? || pc.bn.BurnHeld? || pc.bn.BurnWaitJob? || pc.bn.BurnReading? || pc.bn == BurnSeen(false)
                   || pc.bn == BurnDecide(false) || pc.bn == BurnUnlock(true) || pc.bn.BurnCreating?)
  }

  /** Decided, and on the way out. */
  predicate Leaving(call: Call, pc: Pc) {
    pc == Idle ||
    match call
    case StartJob => pc == Start(StartRefuse) || pc == Start(StartUnlockJob(false)) || pc == Start(StartUnlockStatus(false))
    case Enable => pc == Usb(UsbSeen(true)) || pc == Usb(UsbLowering) || pc == Usb(UsbUnlock)
    case Disable => pc == Usb(UsbLowering) || pc == Usb(UsbUnlock)
    case StartBurn(_) =>
      pc == Burn(BurnSeen(true)) || pc == Burn(BurnDecide(true)) || pc == Burn(BurnUnlock(false)) || pc == Burn(BurnWaitClear)
      || pc == Burn(BurnClearing)
  }

  // ---- one step of a call ---------------------------------------------------------------------------------

  /** The first step. */
  lemma Begins(sh: Shared, i: nat, c: Choice)
    ensures var (sh', pc) := CallerStep(sh, i, Idle, c);
      && !Does(c.call, sh, sh')
      && if Declines(c.call, sh, Idle, c.works) then pc == Idle else Pending(c.call, pc)
  {}

  /** An undecided call stays undecided, or is decided one way. */
  lemma Decides(sh: Shared, i: nat, pc: Pc, c: Choice, call: Call)
    requires TasksOk(sh) && Fits(sh, i, RoleOf(pc)) && MayMove(sh, pc, c) && Pending(call, pc)
    ensures var (sh', pc') := CallerStep(sh, i, pc, c);
      || (Pending(call, pc') && !Does(call, sh, sh') && !Declines(call, sh, pc, c.works))
      || (Leaving(call, pc') && (Does(call, sh, sh') <==> !Declines(call, sh, pc, c.works)))
  {
    match call
    case StartJob => StartDecides(sh, i, pc.at);
    case StartBurn(_) => BurnDecides(sh, i, pc.bn, c.works, call);
    case _ => UsbDecides(sh, i, pc.sw, c.works, call);
  }

  lemma StartDecides(sh: Shared, i: nat, at: StartPc)
    requires TasksOk(sh) && FitsFlags(sh, i, StartRole(at)) && Pending(StartJob, Start(at))
    ensures var (sh', pc') := StartStep(sh, i, at);
      || (Pending(StartJob, pc') && !Does(StartJob, sh, sh') && !Declines(StartJob, sh, Start(at), true))
      || (Leaving(StartJob, pc') && (Does(StartJob, sh, sh') <==> !Declines(StartJob, sh, Start(at), true)))
  {}

  lemma UsbDecides(sh: Shared, i: nat, sw: UsbPc, works: bool, call: Call)
    requires TasksOk(sh) && FitsFlags(sh, i, UsbRole(sw)) && (call == Enable || call == Disable) && Pending(call, Usb(sw))
    ensures var (sh', pc') := UsbStep(sh, i, sw, works);
      || (Pending(call, pc') && !Does(call, sh, sh') && !Declines(call, sh, Usb(sw), works))
      || (Leaving(call, pc') && (Does(call, sh, sh') <==> !Declines(call, sh, Usb(sw), works)))
  {}

  lemma BurnDecides(sh: Shared, i: nat, bn: BurnStartPc, works: bool, call: Call)
    requires TasksOk(sh) && FitsFlags(sh, i, BurnRole(bn)) && call.StartBurn? && Pending(call, Burn(bn))
    ensures var (sh', pc') := BurnStep(sh, i, bn, works);
      || (Pending(call, pc') && !Does(call, sh, sh') && !Declines(call, sh, Burn(bn), works))
      || (Leaving(call, pc') && (Does(call, sh, sh') <==> !Declines(call, sh, Burn(bn), works)))
  {}

  /** A decided call does nothing more and finds nothing more. */
  lemma Leaves(sh: Shared, i: nat, pc: Pc, c: Choice, call: Call)
    requires Leaving(call, pc) && pc != Idle
    ensures var (sh', pc') := CallerStep(sh, i, pc, c);
      Leaving(call, pc') && !Does(call, sh, sh') && !Declines(call, sh, pc, c.works)
  {}

  // ---- a whole call ---------------------------------------------------------------------------------------

  /** Caller i makes move k. */
  predicate Moves(s: State, m: Move, i: nat) { m.CallerMove? && m.i == i && CanMove(s, m) }

  predicate DoesAt(states: seq<State>, moves: seq<Move>, i: nat, call: Call, k: nat)
    requires |states| == |moves| + 1
  {
    k < |moves| && Moves(states[k], moves[k], i) && Does(call, states[k].sh, states[k + 1].sh)
  }

  predicate DeclinesAt(states: seq<State>, moves: seq<Move>, i: nat, call: Call, k: nat)
    requires |states| == |moves| + 1
  {
    k < |moves| && Moves(states[k], moves[k], i) && i < |states[k].callers|
    && Declines(call, states[k].sh, states[k].callers[i], moves[k].c.works)
  }

  /** From move a on caller i is about this one call, until state z. */
  ghost predicate Calling(states: seq<State>, moves: seq<Move>, i: nat, call: Call, a: nat, z: nat) {
    && Trail(states, moves) && Inv(states[0]) && a < z < |states| && i < |states[0].callers|
    && moves[a].CallerMove? && moves[a].i == i && moves[a].c.call == call
    && (forall k | 0 <= k < |states| :: |states[k].callers| == |states[0].callers|)
    && states[a].callers[i] == Idle
    && forall k | a < k < z :: states[k].callers[i] != Idle
  }

  ghost predicate Done(states: seq<State>, moves: seq<Move>, i: nat, call: Call, a: nat, z: nat)
    requires |states| == |moves| + 1
  {
    exists k: nat :: a <= k < z && DoesAt(states, moves, i, call, k)
  }

  ghost predicate Declined(states: seq<State>, moves: seq<Move>, i: nat, call: Call, a: nat, z: nat)
    requires |states| == |moves| + 1
  {
    exists k: nat :: a <= k < z && DeclinesAt(states, moves, i, call, k)
  }

  /** As long as a call is undecided nothing has been done or found; once it is decided exactly
      one of the two has happened. */
  lemma {:induction false} CallSoFar(states: seq<State>, moves: seq<Move>, i: nat, call: Call, a: nat, z: nat)
    requires Calling(states, moves, i, call, a, z)
    ensures var pc := states[z].callers[i];
      || (Pending(call, pc) && !Done(states, moves, i, call, a, z) && !Declined(states, moves, i, call, a, z))
      || (Leaving(call, pc) && (Done(states, moves, i, call, a, z) <==> !Declined(states, moves, i, call, a, z)))
    decreases z
  {
    hide Pending, Leaving, Does, Declines, CallerStep, Inv, MayMove;
    var k := z - 1;
    var s, m := states[k], moves[k];
    if k > a {
      CallSoFar(states, moves, i, call, a, k);
    }
    OneMore(states, moves, i, call, a, k);
    TrailInv(states, moves, k);
    StepOf(states, moves, i, call, k);
    OnlyOne(call, s.callers[i]);
    IdleIsDecided(call);
    IdleMoves(s.sh, moves[a].c);
  }

  /** Counting one more step in. */
  lemma OneMore(states: seq<State>, moves: seq<Move>, i: nat, call: Call, a: nat, k: nat)
    requires |states| == |moves| + 1 && a <= k < |moves|
    ensures Done(states, moves, i, call, a, k + 1) <==> Done(states, moves, i, call, a, k) || DoesAt(states, moves, i, call, k)
    ensures Declined(states, moves, i, call, a, k + 1) <==>
      Declined(states, moves, i, call, a, k) || DeclinesAt(states, moves, i, call, k)
    ensures !Done(states, moves, i, call, a, a) && !Declined(states, moves, i, call, a, a)
  {
    hide DoesAt, DeclinesAt;
  }

  lemma OnlyOne(call: Call, pc: Pc)
    ensures !(Pending(call, pc) && Leaving(call, pc))
  {}

  /** Move k, seen from caller i. */
  lemma StepOf(states: seq<State>, moves: seq<Move>, i: nat, call: Call, k: nat)
    requires Trail(states, moves) && k < |moves| && Inv(states[k]) && i < |states[k].callers|
    ensures |states[k + 1].callers| == |states[k].callers|
    ensures var pc, pc' := states[k].callers[i], states[k + 1].callers[i];
      var does, declines := DoesAt(states, moves, i, call, k), DeclinesAt(states, moves, i, call, k);
      && (!Moves(states[k], moves[k], i) ==> pc' == pc && !does && !declines)
      && (Moves(states[k], moves[k], i) && pc == Idle && moves[k].c.call == call ==>
            !does && if declines then pc' == Idle else Pending(call, pc'))
      && (Moves(states[k], moves[k], i) && Pending(call, pc) ==>
            || (Pending(call, pc') && !does && !declines)
            || (Leaving(call, pc') && (does <==> !declines)))
      && (pc != Idle && Leaving(call, pc) ==> Leaving(call, pc') && !does && !declines)
  {
    hide Pending, Leaving, Does, Declines, CallerStep, TasksOk, Fits, RoleOf, MayMove, JobStep, BurnTaskStep, Compatible, OwnersExist;
    var s, m := states[k], moves[k];
    if CanMove(s, m) {
      StepCallers(s, m);
    }
    if Moves(s, m, i) {
      if s.callers[i] == Idle {
        Begins(s.sh, i, m.c);
      }
      if Pending(call, s.callers[i]) {
        Decides(s.sh, i, s.callers[i], m.c, call);
      }
      if Leaving(call, s.callers[i]) && s.callers[i] != Idle {
        Leaves(s.sh, i, s.callers[i], m.c, call);
      }
    }
  }

  /** Every call that has come to its end, whatever others did meanwhile, has done what it was
      made for exactly when it found no reason against it. */
  lemma CallOutcome(states: seq<State>, moves: seq<Move>, i: nat, call: Call, a: nat, z: nat)
    requires Calling(states, moves, i, call, a, z) && states[z].callers[i] == Idle
    ensures Done(states, moves, i, call, a, z) <==> !Declined(states, moves, i, call, a, z)
  {
    hide Done, Declined, Calling;
    CallSoFar(states, moves, i, call, a, z);
    IdleIsDecided(call);
  }

  lemma IdleIsDecided(call: Call)
    ensures !Pending(call, Idle) && Leaving(call, Idle)
  {}

  lemma IdleMoves(sh: Shared, c: Choice)
    ensures MayMove(sh, Idle, c)
  {}

  // ---- the job task ---------------------------------------------------------------------------------------

  lemma JobTaskOnly(s: State, m: Move)
    requires CanMove(s, m)
    ensures Step(s, m).sh.job == if m.JobMove? then JobStep(s.sh).job else s.sh.job
  {
    hide CallerStep, MayMove, JobStep, BurnTaskStep, JobMay, BurnMay;
    match m
    case CallerMove(i, c) => CallersLeaveJob(s.sh, i, s.callers[i], c);
    case JobMove =>
    case BurnMove => BurnLeavesJob(s.sh);
  }

  lemma BurnLeavesJob(sh: Shared)
    ensures BurnTaskStep(sh).job == sh.job
  {}

  lemma CallersLeaveJob(sh: Shared, i: nat, pc: Pc, c: Choice)
    ensures CallerStep(sh, i, pc, c).0.job == sh.job
  {
    hide StartStep, UsbStep, BurnStep, Begin;
    match pc
    case Idle =>
    case Start(at) => StartLeavesJob(sh, i, at);
    case Usb(sw) => UsbLeavesJob(sh, i, sw, c.works);
    case Burn(bn) => BurnCallLeavesJob(sh, i, bn, c.works);
  }

  lemma StartLeavesJob(sh: Shared, i: nat, at: StartPc)
    ensures StartStep(sh, i, at).0.job == sh.job
  {}

  lemma UsbLeavesJob(sh: Shared, i: nat, sw: UsbPc, works: bool)
    ensures UsbStep(sh, i, sw, works).0.job == sh.job
  {}

  lemma BurnCallLeavesJob(sh: Shared, i: nat, bn: BurnStartPc, works: bool)
    ensures BurnStep(sh, i, bn, works).0.job == sh.job
  {}

  ghost predicate Ran(states: seq<State>, a: nat, z: nat) {
    exists k: nat :: a < k < z && k < |states| && states[k].sh.job == JobRunning
  }

  /** The job task wakes only when notified, and before it sleeps again it has run the job. */
  lemma {:induction false} JobRuns(states: seq<State>, moves: seq<Move>, a: nat, z: nat)
    requires Trail(states, moves) && a < z < |states| && states[a].sh.job == JobSleeping
    requires forall k | a < k < z :: states[k].sh.job != JobSleeping
    requires z > a + 1 || states[z].sh.job != JobSleeping
    ensures states[a].sh.notified
    ensures states[z].sh.job == JobWaitEnd || states[z].sh.job == JobEnding || states[z].sh.job == JobSleeping ==> Ran(states, a, z)
    decreases z
  {
    hide CanMove, Step;
    var s, m := states[z - 1], moves[z - 1];
    if CanMove(s, m) {
      JobTaskOnly(s, m);
    }
    if z - 1 > a {
      JobRuns(states, moves, a, z - 1);
    } else {
      WakesNotified(s, m);
    }
  }

  lemma WakesNotified(s: State, m: Move)
    requires s.sh.job == JobSleeping
    ensures Next(s, m).sh.job != JobSleeping ==> s.sh.notified
  {
    hide CallerStep, MayMove;
    if CanMove(s, m) {
      JobTaskOnly(s, m);
    }
  }
}
