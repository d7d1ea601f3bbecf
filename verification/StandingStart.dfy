/** A start bit left standing in the control register before a job, and what the job's own
    steps up to its first erase make of it. */
module StandingStart {
  import opened Errors
  import opened Bytes
  import opened BatchFormat
  import opened FlashDevice
  import opened FlashSteps
  import opened DebugModule
  import opened McuDebug
  import opened SpiOwnership
  import opened Programmer
  import opened BatchJob

  /** On an undisturbed link to a sound controller a job gets as far as preparing the erase of
      the option page, always its first, without a failure. The page is then erased already:
      the block is down and the report knows of nothing. */
  method EraseUnguarded(p: Programmer, env: Env) returns (err: Error)
    requires Idle(p) && Reachable(p, env) && !p.spi.restoreBlocked && !p.destructiveStarted
    requires Rested(p.Dev()) && p.Dev().Cr().strt && p.Dev().id == ToWord(DEVICE_ID)
    modifies p.dbg, p.spi, p`base, p`log, p`dirty, p`address
    ensures err == NoError && !p.spi.restoreBlocked && !p.destructiveStarted
    ensures p.Dev().option == Erase(old(p.Dev()).option, 0, OPTION_SIZE)
    ensures p.Exposed()
  {
    hide Link.Prompt, Programmer.Steady, Programmer.Calm, Programmer.Safe, Programmer.Strict, Programmer.Exposed, Reachable, Rested,
      ToWord, Erase, SoundBus, View, Device.Shaped;
    var entered, halting;
    err, entered, halting := Begin(p, env);
    err := Prepare(p);
    err := p.PrepareErase(OPTER, 0);
  }

  function Undisturbed(): Env {
    Env(true, NoError, true, true, [], true, true, true, true, NoError, NoError, NoError, NoError, NoError)
  }

  lemma AlwaysReady(fates: nat -> Fate)
    requires forall t :: fates(t).hartReady
    ensures forall t: nat :: HartSoon(fates, t)
  {
    forall t: nat ensures HartSoon(fates, t) {
      assert fates(t).hartReady;
    }
  }

  /** Such a job exists for every idle chip of the right kind with a start bit standing. */
  method Run(chip: Device) returns (p: Programmer, err: Error)
    requires chip.Shaped() && Rested(chip) && chip.Cr().strt && chip.id == ToWord(DEVICE_ID)
    ensures err == NoError && !p.spi.restoreBlocked && !p.destructiveStarted && p.Exposed()
    ensures p.Dev().option == Erase(chip.option, 0, OPTION_SIZE)
  {
    hide Link.Prompt, Programmer.Exposed, Rested, ToWord, Erase, View, Device.Shaped;
    var bus := Sb(false, false, 4, false, false, false, 0, 0, ZERO_WORD);
    var dm := Dm(bus, Running, NoRequest, false, chip, _ => Fate(false, 0, true, true, 0, true, false, false, _ => 0), 0);
    var wire: nat -> LineFate := _ => LineFate(AckOk, false, false, false, true);
    var link := new Link(Dap(0, false, false, ZERO_WORD, 0, ZERO_WORD, ZERO_WORD, Word(1, 0, 0, 0), dm, wire, 0));
    AlwaysReady(dm.fates);
    var owner := new SpiOwner();
    p := new Programmer(link, owner);
    p.destructiveStarted := false;
    err := EraseUnguarded(p, Undisturbed());
  }
}
