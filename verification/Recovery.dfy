/** Any number of update jobs and idle-time probes, one after another, on one target. */
module Recovery {
  import opened Errors
  import opened FlashDevice
  import opened FlashSteps
  import opened DebugModule
  import opened McuDebug
  import opened SpiOwnership
  import opened Programmer
  import opened BatchFormat
  import opened BatchEffects
  import opened BatchRun
  import opened BatchJob

  datatype Request =
    | Job(env: Env, deadlines: nat -> nat)
    | Probe(pins: Error, rollback: Error, found: Error, leavePins: Error, leaveInit: Error)

  /** Whatever was left half done on the target keeps the pins from SPI use. */
  ghost predicate Secure(p: Programmer)
    reads p`log, p`dirty, p.dbg, p.spi
  {
    Idle(p) && p.Safe() && Parked(p)
  }

  /** What Secure means for whoever wants to use the pins. */
  lemma PinsInUse(p: Programmer)
    requires Secure(p) && !p.spi.swdMode
    ensures !p.dirty && Free(p.dbg.dap.dm) && !p.Dev().Cr().strt && !p.spi.restoreBlocked
  {}

  /** The maintenance page's probe: it looks at the chip's identity and gives the pins
      straight back, and refuses to run while an update waits for recovery. */
  method RunProbe(p: Programmer, r: Request) returns (err: Error)
    requires Secure(p) && r.Probe?
    modifies p.spi
    ensures Secure(p)
    ensures old(p.spi.restoreBlocked) ==>
      err != NoError && p.spi.restoreBlocked && p.spi.swdMode == old(p.spi.swdMode)
    ensures old(!p.spi.restoreBlocked) ==>
      (err == NoError <==> r.pins == NoError && r.found == NoError && r.leavePins == NoError && r.leaveInit == NoError)
    ensures old(!p.spi.restoreBlocked) && r.pins == NoError ==>
      p.spi.swdMode == p.spi.restoreBlocked == !(r.leavePins == NoError && r.leaveInit == NoError)
  {
    hide AllBlocked, Device.Shaped, View;
    if p.spi.restoreBlocked {
      return InvalidState;
    }
    err := p.spi.EnterSwdMode(r.pins, r.rollback);
    if err == NoError {
      err := r.found;
      var restored := p.spi.LeaveSwdMode(true, r.leavePins, r.leaveInit);
      if err == NoError {
        err := restored;
      }
    }
  }

  /** One update job, for recovery or not. */
  method RunJob(p: Programmer, r: Request) returns (err: Error, ghost rs: seq<Record>)
    requires Secure(p) && r.Job?
    modifies p, p.dbg, p.spi
    ensures Secure(p) && AllBlocked(p.log)
    ensures old(p.spi.restoreBlocked) && !p.spi.restoreBlocked ==> err == NoError
    ensures err == NoError ==> Delivered(p, r.env.image, rs)
  {
    hide AllBlocked, Delivered, AsReplayed, Clean, View, Device.Shaped, OthersKept, PinsAsBefore, AllStarted;
    p.deadlines := r.deadlines;
    ghost var entered, halting;
    err, rs, entered, halting := ProgramFile(p, r.env);
  }

  /** The i-th request was a job and succeeded. */
  predicate Succeeded(requests: seq<Request>, results: seq<Error>, i: nat) {
    i < |requests| && i < |results| && requests[i].Job? && results[i] == NoError
  }

  /** Every request in order. The log of all writes ever attempted never shows a destructive
      one with the block down; a block, once up, comes down only with a complete update; and if the
      last request was a job that succeeded, its batch has been delivered. */
  method RunAll(p: Programmer, requests: seq<Request>)
    returns (results: seq<Error>, ghost writes: seq<Access>, ghost rs: seq<Record>)
    requires Secure(p)
    modifies p, p.dbg, p.spi
    ensures Secure(p) && |results| == |requests|
    ensures AllBlocked(writes)
    ensures old(p.spi.restoreBlocked) && !p.spi.restoreBlocked ==>
      exists i: nat :: Succeeded(requests, results, i)
    ensures requests != [] && Succeeded(requests, results, |requests| - 1) ==>
      Delivered(p, requests[|requests| - 1].env.image, rs)
  {
    hide Secure, Delivered;
    results, writes, rs := [], [], [];
    while |results| < |requests|
      invariant |results| <= |requests| && Secure(p) && AllBlocked(writes)
      invariant old(p.spi.restoreBlocked) && !p.spi.restoreBlocked ==>
        exists i: nat :: Succeeded(requests, results, i)
      invariant results != [] && Succeeded(requests, results, |results| - 1) ==>
        Delivered(p, requests[|results| - 1].env.image, rs)
    {
      var r := requests[|results|];
      var err;
      if r.Probe? {
        err := RunProbe(p, r);
      } else {
        err, rs := RunJob(p, r);
        BlockedConcat(writes, p.log);
        writes := writes + p.log;
      }
      ghost var before := results;
      results := results + [err];
      assert forall i: nat | Succeeded(requests, before, i) :: Succeeded(requests, results, i);
      assert r.Job? && err == NoError ==> Succeeded(requests, results, |before|);
    }
  }

  lemma BlockedConcat(a: seq<Access>, b: seq<Access>)
    requires AllBlocked(a) && AllBlocked(b)
    ensures AllBlocked(a + b)
  {
    hide Access.Destructive;
    forall i | 0 <= i < |a + b| ensures (a + b)[i].Destructive() ==> (a + b)[i].blocked {
      assert i < |a| ==> (a + b)[i] == a[i];
      assert i >= |a| ==> (a + b)[i] == b[i - |a|];
    }
  }
}
