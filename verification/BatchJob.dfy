/** One update job from file to reset, with the clean-up that decides about the pins. */
module BatchJob {
  import opened Errors
  import opened Bytes
  import opened BatchFormat
  import opened Packing
  import opened FlashDevice
  import opened FlashSteps
  import opened NorMemory
  import opened DebugModule
  import opened SystemBus
  import opened McuDebug
  import opened SpiOwnership
  import opened Programmer
  import opened BatchEffects
  import opened BatchRun

  /** How the parts outside this model fare during one job. */
  datatype Env = Env(
    validArgs: bool, music: Error, found: bool, seekable: bool, image: seq<byte>, memory: bool, loaded: bool,
    streamed: bool, buffered: bool,
    pins: Error, rollback: Error,       // taking the pins over, and undoing that
    gpio: Error,                        // preparing the debug wire
    leavePins: Error, leaveInit: Error) // giving the pins back
  {
    predicate Loads() { found && seekable && memory && loaded && streamed && buffered }
  }

  const IMAGE_CAP: nat := FLASH_SIZE + OPTION_SIZE + MAX_RECORDS * HEADER_SIZE

  /** Loading, checking and parsing the image: everything before the target is touched. */
  method LoadBatch(env: Env) returns (err: Error, manifest: Manifest)
    ensures err == NoError ==> env.Loads() && IsManifest(env.image, manifest)
    ensures err != NoError ==> !env.Loads() || forall rs: seq<Record> :: !IsBatch(env.image, rs)
  {
    hide IsBatch, Tiled, Chain, Complete, Total, CountFlash;
    manifest := Manifest(0, 0, 0, 0, []);
    CapAdmitsBatches(env.image);
    if !env.found {
      return NotFound, manifest;
    }
    if |env.image| == 0 || |env.image| > IMAGE_CAP || !env.seekable {
      return InvalidSize, manifest;
    }
    if !env.memory {
      return NoMem, manifest;
    }
    if !env.loaded {
      return Fail, manifest;
    }
    if !env.streamed {
      return NoMem, manifest;
    }
    var parsed := Parse(env.image);
    if parsed.Err? {
      return InvalidArg, manifest;
    }
    if !env.buffered {
      return NoMem, manifest;
    }
    return NoError, parsed.value;
  }

  /** The programmer's own size limit turns no batch away. */
  lemma CapAdmitsBatches(image: seq<byte>)
    ensures |image| == 0 || |image| > IMAGE_CAP ==> forall rs: seq<Record> :: !IsBatch(image, rs)
  {
    hide Chain, Complete;
    forall rs: seq<Record> | IsBatch(image, rs) ensures 0 < |image| <= IMAGE_CAP {
      PackingBound(image, rs);
    }
  }

  /** Between jobs: no session, no lock held, the debug port in a known shape. */
  ghost predicate Idle(p: Programmer)
    reads p.dbg, p.spi
  {
    !p.dbg.sessionActive && !p.spi.locked && p.Dev().Shaped() && p.dbg.dap.select < 0x100
  }

  /** Nothing on the way to the target fails. */
  ghost predicate Reachable(p: Programmer, env: Env)
    reads p.dbg
  {
    && env.pins == NoError && env.gpio == NoError
    && CleanLine(p.dbg.dap.line) && CleanBus(p.dbg.dap.dm.fates) && p.dbg.dap.dm.sb.busy < SB_WAIT_LIMIT
    && p.dbg.dap.idr != ZERO_WORD && p.dbg.dap.idr != ALL_ONES_WORD
  }

  /** Takes the pins, opens the session and halts the core. The session is open exactly
      when the halt was requested. */
  method Connect(p: Programmer, env: Env) returns (err: Error, entered: bool, halting: bool)
    requires Idle(p)
    modifies p.dbg, p.spi
    ensures p.Dev() == old(p.Dev()) && p.dbg.dap.select < 0x100 && SameWire(old(p.dbg.dap), p.dbg.dap)
    ensures entered == p.spi.locked == (env.pins == NoError) && halting == p.dbg.sessionActive
    ensures entered ==> p.spi.swdMode && p.spi.restoreBlocked == old(p.spi.restoreBlocked)
    ensures !entered ==> err != NoError && !halting && PinsAsBefore(p.spi, old(p.spi.swdMode), old(p.spi.restoreBlocked))
    ensures halting ==> entered && p.dbg.Recoverable()
    ensures !halting ==> p.dbg.dap.dm == old(p.dbg.dap.dm) && err != NoError
    ensures HartOnly(old(p.dbg.dap.dm), p.dbg.dap.dm)
    ensures err == NoError ==>
      p.dbg.Coherent() && p.dbg.dap.dm.hart == Halted && p.dbg.apTar == 4 * DMSTATUS
    ensures old(Reachable(p, env)) ==> err == NoError && p.dbg.Prompt()
  {
    hide ToBits, Core.Stationary, Device.Shaped;
    halting := false;
    err := p.spi.EnterSwdMode(env.pins, env.rollback);
    entered := err == NoError;
    if err != NoError {
      return;
    }
    var idcode;
    err, idcode := p.dbg.SessionBegin(env.gpio);
    if err != NoError {
      return;
    }
    halting := true;
    err := p.dbg.Halt();
  }

  /** Taking the pins over failed: they are back, unless that failed too. */
  predicate PinsAsBefore(spi: SpiOwner, mode: bool, blocked: bool)
    reads spi
  {
    (spi.swdMode == mode && spi.restoreBlocked == blocked) || (spi.swdMode && spi.restoreBlocked)
  }

  /** Checks the chip's identity, then opens the locks. */
  method Prepare(p: Programmer) returns (err: Error)
    requires p.Steady()
    modifies p.dbg, p`log, p`dirty, p`address
    ensures p.Calm() && (err == NoError ==> p.Steady())
    ensures SameCells(old(p.Dev()), p.Dev()) && SameButLocks(old(p.Dev()).Cr(), p.Dev().Cr())
    ensures err == NoError ==> p.Dev().id == ToWord(DEVICE_ID) && p.Dev().Cr().optwre
    ensures old(p.Exposed()) ==> p.Exposed()
    ensures old(p.Safe()) ==> p.Safe()
    ensures old(p.Strict()) ==> p.Strict()
    ensures old(p.dbg.Prompt()) ==> p.dbg.Prompt()
    ensures old(p.dbg.Prompt() && Rested(p.Dev()) && p.Dev().id == ToWord(DEVICE_ID)) && SoundBus(p.base.dm.fates) ==>
      err == NoError && p.dbg.Prompt() && Unlocked(p.Dev()) && p.Dev().Cr().strt == old(p.Dev()).Cr().strt
  {
    hide ReadBus, AfterRead, Mapped, View, Link.Prompt, Programmer.Steady, Programmer.Calm, AllBlocked, AllStarted, ToWord, Link.Valid, Link.Coherent,
      Programmer.Kept;
    p.SteadyShape();
    ReadRegisters(p.Dev());
    p.address := DEVICE_ID_ADDRESS;
    var id;
    err, id := p.Get(DEVICE_ID_ADDRESS);
    if err == NoError && id != ToWord(DEVICE_ID) {
      err := InvalidResponse;
    }
    if err == NoError {
      p.address := CR;
      p.SteadyShape();
      err := p.Unlock();
      p.CalmShape();
    }
  }

  /** The target has been updated in full and runs again, and the block is down. */
  ghost predicate Updated(p: Programmer, image: seq<byte>, rs: seq<Record>)
    reads p`programmedBytes, p`verifiedBytes, p`mcuResumed, p.dbg, p.spi
  {
    && HeldSoFar(image, rs, |rs|, MemoryOf(p.Dev()))
    && p.programmedBytes == p.verifiedBytes == Total(rs)
    && p.mcuResumed && Free(p.dbg.dap.dm) && !p.Dev().Cr().strt && !p.spi.restoreBlocked
  }

  /** Resets the target after a verified batch; only then may the pins be given back. */
  method FinishUpdate(p: Programmer) returns (err: Error)
    requires p.Steady() && p.destructiveStarted && p.spi.restoreBlocked
    modifies p.dbg, p.spi`restoreBlocked, p`dirty, p`mcuResumed
    ensures p.dbg.Valid() && p.Dev().Shaped() && SameWire(old(p.dbg.dap), p.dbg.dap)
    ensures p.dbg.sessionActive && p.dbg.dap.select < 0x100
    ensures MemoryOf(p.Dev()) == old(MemoryOf(p.Dev()))
    ensures err == NoError ==>
      p.mcuResumed && Free(p.dbg.dap.dm) && p.Dev() == ResetRegisters(old(p.Dev())) && !p.spi.restoreBlocked && !p.dirty
    ensures err != NoError ==> p.spi.restoreBlocked && p.mcuResumed == old(p.mcuResumed) && p.dirty == old(p.dirty)
    ensures old(p.Safe()) ==> p.Safe()
    ensures old(p.Strict()) ==> p.Strict()
    ensures old(p.dbg.Prompt()) ==> err == NoError
  {
    hide Link.Prompt, AllBlocked, AllStarted, ToWord, CoreOf, HartUntouched;
    ResetClears(p.Dev());
    err := p.dbg.SystemReset();
    if err == NoError {
      p.spi.AllowSwdRestore();
      p.dirty := false;
      p.mcuResumed := true;
    }
  }

  lemma ResetClears(d: Device)
    ensures !ResetRegisters(d).Cr().strt && MemoryOf(ResetRegisters(d)) == MemoryOf(d)
  {
    LockMasks();
  }

  /** From the halted core to the running updated one. */
  method Update(p: Programmer, image: seq<byte>, rs: seq<Record>, buffer: array<byte>) returns (err: Error)
    requires p.Steady() && BatchRecords(image, rs) && buffer.Length == IO_CHUNK
    requires p.programmedBytes == p.verifiedBytes == 0 && !p.destructiveStarted
    modifies p.dbg, p.spi`restoreBlocked, buffer, p`log, p`dirty, p`waits, p`address, p`destructiveStarted,
      p`programmedBytes, p`verifiedBytes, p`mcuResumed
    ensures p.dbg.Valid() && p.Dev().Shaped() && p.dbg.sessionActive && p.dbg.dap.select < 0x100
    ensures err == NoError ==> Updated(p, image, rs) && !p.dirty && p.destructiveStarted
    ensures err != NoError ==> p.Marked(old(p.spi.restoreBlocked), false, err) && p.mcuResumed == old(p.mcuResumed)
    ensures !p.destructiveStarted ==> p.dbg.Recoverable()
    ensures old(p.dbg.Prompt()) && !p.destructiveStarted ==> p.dbg.Prompt()
    ensures old(p.Unguarded()) && p.destructiveStarted ==> p.Exposed()
    ensures old(p.Safe()) ==> p.Safe()
    ensures old(p.Strict()) ==> p.Strict()
    ensures OthersKept(rs, old(MemoryOf(p.Dev())), MemoryOf(p.Dev()))
    ensures old(Trouble(p)) ||
      (&& (err == NoError <==> VerifiesThroughout(image, old(MemoryOf(p.Dev())), rs))
       && (err == NoError ==> MemoryOf(p.Dev()) == Replay(image, old(MemoryOf(p.Dev())), rs)))
  {
    hide Link.Prompt, Programmer.Steady, Programmer.Calm, Programmer.Safe, Programmer.Strict, Programmer.Exposed, Link.Valid, Link.Recoverable,
      BatchRecords, ToWord, CoreOf, HartUntouched, VerifiesThroughout, Replay, HeldSoFar, OthersKept, SameWire;
    p.SteadyShape();
    ghost var m := MemoryOf(p.Dev());
    NothingYet(image, rs, m);
    err := Prepare(p);
    SameMemoryOf(m, p.Dev());
    if err == NoError {
      p.SteadyShape();
      err := ProcessBatch(p, image, rs, buffer);
      CalmRecovers(p);
      if err == NoError {
        err := FinishUpdate(p);
      }
    } else {
      CalmRecovers(p);
    }
  }

  /** Something on the link, in the controller or in its deadlines may still go wrong, or
      the chip is not the expected one fresh from reset. */
  ghost predicate Trouble(p: Programmer)
    reads p`deadlines, p`base, p.dbg
  {
    !(p.dbg.Prompt() && Resettled(p.Dev()) && p.Dev().id == ToWord(DEVICE_ID)
      && SoundBus(p.base.dm.fates) && Patient(p.deadlines, p.base.dm.fates))
  }

  lemma CalmRecovers(p: Programmer)
    requires p.Calm()
    ensures p.dbg.Recoverable() && p.dbg.Valid() && p.Dev().Shaped() && p.dbg.sessionActive && p.dbg.dap.select < 0x100
  {}

  lemma SameMemoryOf(m: Memory, d: Device)
    requires d.flash == m.flash && d.option == m.option
    ensures MemoryOf(d) == m
  {}

  /** Giving the pins back works. */
  predicate GivesBack(env: Env) { env.leavePins == NoError && env.leaveInit == NoError }

  /** Nothing was begun on the target, no earlier work waits for recovery, and a core that was
      halted goes again. */
  predicate Unspoilt(p: Programmer, halting: bool, recovery: bool)
    reads p`destructiveStarted, p`mcuResumed
  {
    !p.destructiveStarted && !recovery && (halting ==> p.mcuResumed)
  }

  /** What every way out of a job shares: resume when nothing was changed, end the session,
      give the pins back or keep them. */
  method CleanUp(p: Programmer, env: Env, result: Error, entered: bool, halting: bool, recovery: bool)
    returns (err: Error)
    requires p.Dev().Shaped() && p.dbg.dap.select < 0x100
    requires entered == p.spi.locked && halting == p.dbg.sessionActive && (halting ==> p.dbg.Valid())
    requires halting && !p.destructiveStarted ==> p.dbg.Recoverable()
    requires halting ==> entered
    requires result == NoError ==> entered && !p.spi.restoreBlocked
    modifies p.dbg, p.spi, p`mcuResumed, p`cleanupError
    ensures Idle(p) && p.Dev() == old(p.Dev()) && SameWire(old(p.dbg.dap), p.dbg.dap)
    ensures HartOnly(old(p.dbg.dap.dm), p.dbg.dap.dm)
    ensures result == NoError || recovery || p.destructiveStarted ==>
      p.dbg.dap.dm == old(p.dbg.dap.dm) && p.mcuResumed == old(p.mcuResumed)
    ensures result != NoError ==> err == result
    ensures err == NoError && entered && !p.spi.restoreBlocked ==> !p.spi.swdMode
    ensures old(p.spi.restoreBlocked) ==> p.spi.restoreBlocked
    ensures err == NoError ==> p.spi.restoreBlocked == old(p.spi.restoreBlocked)
    ensures entered && old(p.spi.swdMode) && !p.spi.swdMode ==>
      result == NoError || (!p.destructiveStarted && !recovery && (halting ==> Free(p.dbg.dap.dm) && p.mcuResumed))
    ensures !entered ==> p.spi.swdMode == old(p.spi.swdMode) && p.spi.restoreBlocked == old(p.spi.restoreBlocked)
    ensures !halting ==> p.dbg.dap.dm == old(p.dbg.dap.dm)
    ensures entered && old(p.spi.swdMode) && p.spi.restoreBlocked ==> p.spi.swdMode
    ensures result != NoError && !p.destructiveStarted && !recovery && halting && !p.spi.restoreBlocked ==> Free(p.dbg.dap.dm)
    ensures result == NoError && err != NoError ==> p.spi.restoreBlocked && p.spi.swdMode
    ensures result == NoError && env.leavePins == NoError && env.leaveInit == NoError ==> err == NoError
    ensures entered && old(p.spi.swdMode && !p.spi.restoreBlocked) ==>
      (!p.spi.swdMode <==> (result == NoError || Unspoilt(p, halting, recovery)) && GivesBack(env))
    ensures entered && old(p.spi.swdMode && !p.spi.restoreBlocked) && !p.spi.swdMode ==> !p.spi.restoreBlocked
    ensures old(p.dbg.Prompt()) && halting && result != NoError && !p.destructiveStarted && !recovery ==> p.mcuResumed
    ensures entered && old(p.cleanupError == NoError && !p.spi.restoreBlocked) ==>
      (p.cleanupError != NoError <==>
         || (result != NoError && !p.destructiveStarted && !recovery && halting && !p.mcuResumed)
         || ((result == NoError || Unspoilt(p, halting, recovery)) && !GivesBack(env)))
  {
    hide Device.Shaped, Core.Stationary, Link.Coherent;
    err := result;
    var restore := err == NoError;
    if err != NoError && !p.destructiveStarted && !recovery {
      restore := true;
      if halting {
        var resumed := p.dbg.Resume();
        p.mcuResumed := resumed == NoError;
        if resumed != NoError {
          p.cleanupError := resumed;
          restore := false;
          p.spi.BlockSwdRestore();
        }
      }
    }
    if halting {
      p.dbg.SessionEnd();
    }
    if entered {
      var restored := p.spi.LeaveSwdMode(restore, env.leavePins, env.leaveInit);
      if restored != NoError {
        p.cleanupError := restored;
        if err == NoError {
          err := restored;
        }
      }
    }
  }

  /** Nothing outside goes wrong during the job and the target is the expected chip, fresh
      from a reset, behind a sound controller. */
  ghost predicate Clean(p: Programmer, env: Env)
    reads p`deadlines, p.dbg
  {
    && env.Loads() && Reachable(p, env) && Resettled(p.Dev()) && p.Dev().id == ToWord(DEVICE_ID)
    && Patient(p.deadlines, p.dbg.dap.dm.fates)
  }

  /** What a clean job makes of the batch in the image. */
  ghost predicate AsReplayed(p: Programmer, image: seq<byte>, m: Memory, rs: seq<Record>, err: Error)
    reads p.dbg
  {
    && m.Shaped() && IsBatch(image, rs) && AllProgrammable(image, rs)
    && (err == NoError <==> VerifiesThroughout(image, m, rs))
    && (err == NoError ==> MemoryOf(p.Dev()) == Replay(image, m, rs))
  }

  /** Connects and marks the halted core as the base of the flash work. */
  method Begin(p: Programmer, env: Env) returns (err: Error, entered: bool, halting: bool)
    requires Idle(p)
    modifies p.dbg, p.spi, p`base
    ensures p.Dev() == old(p.Dev()) && p.Dev().Shaped() && p.dbg.dap.select < 0x100
    ensures entered == p.spi.locked && halting == p.dbg.sessionActive && (halting ==> p.dbg.Valid() && p.dbg.Recoverable())
    ensures entered ==> p.spi.swdMode && p.spi.restoreBlocked == old(p.spi.restoreBlocked)
    ensures !entered ==> PinsAsBefore(p.spi, old(p.spi.swdMode), old(p.spi.restoreBlocked)) && !halting
    ensures !halting ==> p.dbg.dap.dm == old(p.dbg.dap.dm)
    ensures err == NoError ==> entered && halting && p.Steady()
    ensures old(p.Safe()) ==> p.Safe()
    ensures old(p.Strict()) ==> p.Strict()
    ensures old(Reachable(p, env)) ==> err == NoError && p.dbg.Prompt() && SoundBus(p.base.dm.fates)
    ensures old(Clean(p, env)) ==> err == NoError && !Trouble(p)
  {
    hide AllBlocked, AllStarted, Link.Prompt, ToBits, Core.Stationary, SoundBus, View, ToWord, Patient;
    err, entered, halting := Connect(p, env);
    if err == NoError {
      p.base := p.dbg.dap;
    }
  }

  /** The job from the pins on. */
  method Drive(p: Programmer, env: Env, rs: seq<Record>) returns (err: Error, entered: bool, halting: bool)
    requires Idle(p) && IsBatch(env.image, rs)
    requires p.programmedBytes == p.verifiedBytes == 0 && !p.destructiveStarted
    modifies p.dbg, p.spi, p`log, p`dirty, p`waits, p`address, p`destructiveStarted, p`programmedBytes, p`verifiedBytes, p`mcuResumed,
      p`base
    ensures p.Dev().Shaped() && p.dbg.dap.select < 0x100
    ensures entered == p.spi.locked && halting == p.dbg.sessionActive && (halting ==> p.dbg.Valid())
    ensures halting && !p.destructiveStarted ==> p.dbg.Recoverable()
    ensures err == NoError ==> entered && Updated(p, env.image, rs) && !p.dirty && p.destructiveStarted
    ensures err != NoError ==> p.mcuResumed == old(p.mcuResumed)
    ensures entered ==> p.spi.swdMode && (err != NoError ==> p.Marked(old(p.spi.restoreBlocked), false, err))
    ensures !entered ==> PinsAsBefore(p.spi, old(p.spi.swdMode), old(p.spi.restoreBlocked)) && !halting
    ensures !halting ==> p.dbg.dap.dm == old(p.dbg.dap.dm) && !p.destructiveStarted
    ensures old(Reachable(p, env)) ==> entered && halting && (!p.destructiveStarted ==> p.dbg.Prompt())
    ensures old(p.Unguarded()) && p.destructiveStarted ==> p.Exposed()
    ensures old(p.Safe()) ==> p.Safe()
    ensures old(p.Strict()) ==> p.Strict()
    ensures OthersKept(rs, old(MemoryOf(p.Dev())), MemoryOf(p.Dev()))
    ensures old(Clean(p, env)) ==> AsReplayed(p, env.image, old(MemoryOf(p.Dev())), rs, err)
  {
    hide Link.Prompt, Programmer.Steady, Programmer.Calm, Programmer.Safe, Programmer.Strict, Programmer.Exposed, Link.Valid, Link.Recoverable, IsBatch,
      ToWord, CoreOf, HartUntouched, VerifiesThroughout, Replay, Resettled, HeldSoFar, OthersKept, SameWire, Trouble, Clean, Updated,
      FlashFrom, Programmable;
    BatchProgrammable(env.image, rs);
    NothingYet(env.image, rs, MemoryOf(p.Dev()));
    err, entered, halting := Begin(p, env);
    if err == NoError {
      var buffer := new byte[IO_CHUNK];
      err := Update(p, env.image, rs, buffer);
    }
  }

  /** A successful job: the file held a batch, every record that no later one erased into
      reads back as its payload, all of it counted twice over, and the target runs with the
      pins back in SPI use. */
  ghost predicate Delivered(p: Programmer, image: seq<byte>, rs: seq<Record>)
    reads p`programmedBytes, p`verifiedBytes, p`mcuResumed, p.dbg, p.spi
  {
    IsBatch(image, rs) && Updated(p, image, rs) && !p.spi.swdMode
  }

  /** The pins are in SPI use only while the core is free to run; a block keeps them away. */
  ghost predicate Parked(p: Programmer)
    reads p.dbg, p.spi
  {
    (p.spi.restoreBlocked ==> p.spi.swdMode) && (!Free(p.dbg.dap.dm) ==> p.spi.restoreBlocked)
  }

  /** The caller's arguments and the other subsystems are in order too. */
  predicate AsExpected(env: Env) {
    env.validArgs && env.music == NoError && env.leavePins == NoError && env.leaveInit == NoError
  }

  /** Load, drive and clean up, with a fresh report. */
  method Work(p: Programmer, env: Env, recovery: bool)
    returns (err: Error, ghost rs: seq<Record>, ghost entered: bool, ghost halting: bool)
    requires Idle(p) && p.programmedBytes == p.verifiedBytes == 0 && !p.destructiveStarted && !p.mcuResumed
    requires recovery == p.spi.restoreBlocked
    modifies p.dbg, p.spi, p`log, p`dirty, p`waits, p`address, p`destructiveStarted, p`programmedBytes, p`verifiedBytes, p`mcuResumed,
      p`base, p`cleanupError
    ensures Idle(p)
    ensures err == NoError ==> p.destructiveStarted
    ensures err == NoError ==> Delivered(p, env.image, rs)
    ensures recovery && !p.spi.restoreBlocked ==> err == NoError
    ensures entered && !p.spi.swdMode ==>
      err == NoError || (!p.destructiveStarted && !recovery && (halting ==> Free(p.dbg.dap.dm)))
    ensures entered ==>
      (!p.spi.swdMode <==> (err == NoError || Unspoilt(p, halting, recovery)) && GivesBack(env))
    ensures entered && !p.spi.swdMode ==> !p.spi.restoreBlocked
    ensures old(Reachable(p, env)) && entered && !p.destructiveStarted && !recovery ==> halting && p.mcuResumed
    ensures !entered ==> PinsAsBefore(p.spi, old(p.spi.swdMode), recovery) && p.dbg.dap.dm == old(p.dbg.dap.dm)
    ensures old(Parked(p)) ==> Parked(p)
    ensures old(p.Unguarded()) && p.destructiveStarted ==> p.Exposed()
    ensures old(p.Safe()) ==> p.Safe()
    ensures old(p.Strict()) ==> p.Strict()
    ensures OthersKept(rs, old(MemoryOf(p.Dev())), MemoryOf(p.Dev()))
    ensures old(Clean(p, env)) && AsExpected(env) ==>
      (forall all: seq<Record> :: !IsBatch(env.image, all)) || AsReplayed(p, env.image, old(MemoryOf(p.Dev())), rs, err)
  {
    hide Link.Prompt, Link.Valid, Link.Recoverable, IsBatch, ToWord, CoreOf, VerifiesThroughout, Replay, Resettled, HeldSoFar,
      OthersKept, SameWire, View, AllBlocked, AllStarted, Programmable, Total, Reachable, Patient;
    var manifest, inSwd, session := Manifest(0, 0, 0, 0, []), false, false;
    rs := [];
    NothingYet(env.image, rs, MemoryOf(p.Dev()));
    err, manifest := LoadBatch(env);
    if err == NoError {
      rs := manifest.records;
      err, inSwd, session := Drive(p, env, manifest.records);
    }
    entered, halting := inSwd, session;
    err := CleanUp(p, env, err, inSwd, session, recovery);
  }

  lemma EmptyLog()
    ensures AllBlocked([]) && AllStarted([])
  {}

  /** A whole update job. */
  method ProgramFile(p: Programmer, env: Env)
    returns (err: Error, ghost rs: seq<Record>, ghost entered: bool, ghost halting: bool)
    requires Idle(p)
    modifies p.dbg, p.spi, p`log, p`entry, p`dirty, p`waits, p`address, p`destructiveStarted, p`programmedBytes, p`verifiedBytes,
      p`mcuResumed, p`base, p`cleanupError
    ensures Idle(p)
    ensures !env.validArgs ==> err == InvalidArg && !entered
    ensures env.validArgs && env.music != NoError ==> err == env.music && !entered
    ensures !env.validArgs || env.music != NoError ==> p.log == [] && p.dbg.dap == old(p.dbg.dap) && p.spi.swdMode == old(p.spi.swdMode)
    ensures err == NoError ==> Delivered(p, env.image, rs)
    ensures old(p.spi.restoreBlocked) && !p.spi.restoreBlocked ==> err == NoError
    ensures entered && !p.spi.swdMode ==>
      err == NoError || (!p.destructiveStarted && !old(p.spi.restoreBlocked) && (halting ==> Free(p.dbg.dap.dm)))
    ensures entered ==>
      (!p.spi.swdMode <==> (err == NoError || Unspoilt(p, halting, old(p.spi.restoreBlocked))) && GivesBack(env))
    ensures entered && !p.spi.swdMode ==> !p.spi.restoreBlocked
    ensures old(Reachable(p, env)) && entered && !p.destructiveStarted && !old(p.spi.restoreBlocked) ==> halting && p.mcuResumed
    ensures !entered ==>
      PinsAsBefore(p.spi, old(p.spi.swdMode), old(p.spi.restoreBlocked)) && p.dbg.dap.dm == old(p.dbg.dap.dm)
    ensures old(Parked(p)) ==> Parked(p)
    ensures old(p.dirty ==> p.spi.restoreBlocked) && (err == NoError || (entered && p.destructiveStarted)) ==>
      (AllBlocked(p.log) <==> old(!p.Unguarded()))
    ensures old(p.Safe()) ==> p.Safe()
    ensures old(!p.Dev().Cr().strt) ==> AllStarted(p.log) && (!p.destructiveStarted ==> SameCells(old(p.Dev()), p.Dev()))
    ensures OthersKept(rs, old(MemoryOf(p.Dev())), MemoryOf(p.Dev()))
    ensures old(Clean(p, env)) && AsExpected(env) ==>
      (forall all: seq<Record> :: !IsBatch(env.image, all)) || AsReplayed(p, env.image, old(MemoryOf(p.Dev())), rs, err)
  {
    hide Link.Prompt, Link.Valid, Link.Recoverable, IsBatch, ToWord, CoreOf, VerifiesThroughout, Replay, Resettled, HeldSoFar,
      OthersKept, SameWire, View, Programmable, Total, Reachable, Patient, Delivered, Parked, AsReplayed, SoundBus,
      AllBlocked, AllStarted, Access.Destructive;
    EmptyLog();
    p.log, p.entry := [], p.Dev();
    entered, halting, rs := false, false, [];
    NothingYet(env.image, rs, MemoryOf(p.Dev()));
    var recovery := p.spi.restoreBlocked;
    if !env.validArgs {
      return InvalidArg, rs, entered, halting;
    }
    p.destructiveStarted, p.programmedBytes, p.verifiedBytes, p.address := false, 0, 0, 0;
    p.mcuResumed, p.cleanupError := false, NoError;
    if env.music != NoError {
      return env.music, rs, entered, halting;
    }
    err, rs, entered, halting := Work(p, env, recovery);
  }

  /** After a successful job every record of the file reads back as its payload, given that
      no erase reached back over an earlier record. */
  lemma DeliveredStores(p: Programmer, image: seq<byte>, rs: seq<Record>)
    requires Delivered(p, image, rs) && EarlierSpared(rs)
    ensures forall i | 0 <= i < |rs| :: Retained(image, MemoryOf(p.Dev()), rs[i])
    ensures p.programmedBytes == p.verifiedBytes == Total(rs) == |image| - HEADER_SIZE * |rs|
  {
    hide IsBatch, EarlierSpared, Retained, HeldSoFar;
    AllHeld(image, rs, MemoryOf(p.Dev()));
    BatchFileSize(image, rs);
  }

  /** A clean job of a batch whose records all erase, none reaching back, succeeds and stores
      every record. */
  lemma CleanJobStores(p: Programmer, image: seq<byte>, m: Memory, rs: seq<Record>, err: Error)
    requires AsReplayed(p, image, m, rs, err) && EarlierSpared(rs)
    requires forall i | 0 <= i < |rs| :: rs[i].eraseOptions == 1
    ensures err == NoError
    ensures forall i | 0 <= i < |rs| :: Retained(image, MemoryOf(p.Dev()), rs[i])
  {
    hide IsBatch, Retained, AllProgrammable, VerifiesThroughout, Replay, BatchRecords;
    BatchProgrammable(image, rs);
    ErasingBatchVerifies(image, m, rs);
    StoredIff(image, m, rs);
    forall i, j | 1 <= i < j < |rs| ensures Harmless(image, rs[i], rs[j]) {
      assert Spares(rs[i], rs[j]);
    }
  }
}
