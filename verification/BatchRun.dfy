/** A whole update: every record of a batch erased, programmed and verified in turn. */
module BatchRun {
  import opened Errors
  import opened Bytes
  import opened BatchFormat
  import opened FlashDevice
  import opened FlashSteps
  import opened NorMemory
  import opened DebugModule
  import opened McuDebug
  import opened SpiOwnership
  import opened Programmer
  import opened BatchEffects

  /** What a step on one record leaves alone. */
  ghost predicate KeptByRecord(d: Device, d': Device, r: Record) {
    match r.kind
    case Flash => d'.option == d.option && FlashKeptOutside(d, d', FootFrom(r), FootTo(r))
    case OptionBytes => d'.flash == d.flash
  }

  /** Erases and programs the option page. */
  method WriteOptionRecord(p: Programmer, image: seq<byte>, record: Record) returns (err: Error)
    requires p.Steady() && Programmable(image, record) && record.kind == OptionBytes
    modifies p.dbg, p.spi`restoreBlocked, p`log, p`dirty, p`waits, p`address, p`destructiveStarted, p`programmedBytes
    ensures p.Calm() && (err == NoError ==> p.Steady())
    ensures old(p.Exposed()) ==> p.Exposed()
    ensures old(p.Unguarded() && !p.destructiveStarted) && p.destructiveStarted ==> p.Exposed()
    ensures old(p.Safe()) ==> p.Safe()
    ensures old(p.Strict()) ==> p.Strict()
    ensures old(p.dbg.Prompt()) ==> p.destructiveStarted
    ensures p.Marked(old(p.spi.restoreBlocked), old(p.destructiveStarted), err)
    ensures p.Dev().flash == old(p.Dev()).flash
    ensures err == NoError ==> p.programmedBytes == old(p.programmedBytes) + record.payloadSize
    ensures old(p.Erasable() && p.Dev().Shaped()) ==>
      && err == NoError && p.Fine() && p.Erasable() && p.Dev().Shaped()
      && MemoryOf(p.Dev()) == RecordEffect(image, MemoryOf(old(p.Dev())), record)
  {
    hide Link.Prompt, Programmer.Steady, Programmer.Calm, Programmer.Safe, Programmer.Strict, Programmer.Exposed, Erase, NorPatch, Patient, Supported, PayloadOf,
      Link.Valid, Link.Coherent, CoreOf, Programmer.Kept, View;
    ghost var d := p.Dev();
    ProgrammableBounds(image, record);
    err := NoError;
    if record.eraseOptions != 0 {
      err := p.EraseOperation(OPTER, 0);
    }
    if err == NoError {
      err := p.ProgramOptionRecord(image, record);
      if err == NoError {
        p.programmedBytes := p.programmedBytes + record.payloadSize;
      }
    }
    p.CalmShape();
  }

  /** Erases a flash record's sectors when it asks for that, then programs it. */
  method WriteFlashRecord(p: Programmer, image: seq<byte>, record: Record, buffer: array<byte>) returns (err: Error)
    requires p.Steady() && Programmable(image, record) && record.kind == Flash && buffer.Length == IO_CHUNK
    requires p.spi.restoreBlocked && p.destructiveStarted
    modifies p.dbg, p.spi`restoreBlocked, buffer, p`log, p`dirty, p`waits, p`address, p`destructiveStarted, p`programmedBytes
    ensures p.Calm() && (err == NoError ==> p.Steady())
    ensures old(p.Exposed()) ==> p.Exposed()
    ensures old(p.Safe()) ==> p.Safe()
    ensures old(p.Strict()) ==> p.Strict()
    ensures p.spi.restoreBlocked && p.destructiveStarted
    ensures KeptByRecord(old(p.Dev()), p.Dev(), record)
    ensures err == NoError ==> p.programmedBytes == old(p.programmedBytes) + record.payloadSize
    ensures old(p.Erasable() && p.Dev().Shaped() && (record.eraseOptions == 1 || p.Fine())) ==>
      && err == NoError && p.Fine() && p.Erasable() && p.Dev().Shaped()
      && MemoryOf(p.Dev()) == RecordEffect(image, MemoryOf(old(p.Dev())), record)
  {
    hide Link.Prompt, Programmer.Steady, Programmer.Calm, Programmer.Safe, Programmer.Strict, Programmer.Exposed, Erase, NorPatch, Patient, PayloadOf,
      Supported, SpanStart, SpanEnd, Ceil4, FlashKeptOutside;
    ghost var d := p.Dev();
    ProgrammableBounds(image, record);
    err := NoError;
    if record.eraseOptions != 0 {
      err := p.EraseRange(record.address, record.payloadSize);
    }
    FlashErased(image, record, d, p.Dev());
    if err == NoError {
      ghost var d1 := p.Dev();
      err := p.ProgramFlashRecord(image, record, buffer);
      FlashWritten(image, record, d, d1, p.Dev());
    }
    p.CalmShape();
  }

  lemma FlashErased(image: seq<byte>, r: Record, d: Device, d': Device)
    requires Programmable(image, r) && r.kind == Flash
    ensures r.eraseOptions == 0 || r.eraseOptions == 1
    ensures FlashKeptOutside(d, d', SpanStart(r.address), SpanEnd(r.AddressEnd())) && d'.option == d.option && r.eraseOptions == 1 ==>
      KeptByRecord(d, d', r)
    ensures KeptByRecord(d, d, r)
  {}

  lemma FlashWritten(image: seq<byte>, r: Record, d: Device, d1: Device, d2: Device)
    requires Programmable(image, r) && r.kind == Flash && KeptByRecord(d, d1, r)
    requires FlashKeptOutside(d1, d2, r.address - FLASH_BASE, r.address - FLASH_BASE + Ceil4(r.payloadSize)) && d2.option == d1.option
    ensures KeptByRecord(d, d2, r)
  {
    hide Fields;
    if r.eraseOptions == 1 {
      WordsInSpan(r);
    }
  }

  method WriteRecord(p: Programmer, image: seq<byte>, record: Record, buffer: array<byte>) returns (err: Error)
    requires p.Steady() && Programmable(image, record) && buffer.Length == IO_CHUNK
    requires record.kind == Flash ==> p.spi.restoreBlocked && p.destructiveStarted
    modifies p.dbg, p.spi`restoreBlocked, buffer, p`log, p`dirty, p`waits, p`address, p`destructiveStarted, p`programmedBytes
    ensures p.Calm() && (err == NoError ==> p.Steady())
    ensures old(p.Exposed()) ==> p.Exposed()
    ensures old(p.Unguarded() && !p.destructiveStarted) && p.destructiveStarted ==> p.Exposed()
    ensures old(p.Safe()) ==> p.Safe()
    ensures old(p.Strict()) ==> p.Strict()
    ensures old(p.dbg.Prompt()) ==> p.destructiveStarted
    ensures p.Marked(old(p.spi.restoreBlocked), old(p.destructiveStarted), err)
    ensures KeptByRecord(old(p.Dev()), p.Dev(), record)
    ensures err == NoError ==> p.programmedBytes == old(p.programmedBytes) + record.payloadSize
    ensures old(Ready(p, record) && p.Dev().Shaped()) ==>
      && err == NoError && p.Fine() && p.Erasable() && p.Dev().Shaped()
      && MemoryOf(p.Dev()) == RecordEffect(image, MemoryOf(old(p.Dev())), record)
  {
    hide Link.Prompt, Programmer.Steady, Programmer.Calm, Programmer.Fine, Programmer.Erasable, Programmer.Safe, Programmer.Strict, Programmer.Exposed,
      Programmable, RecordEffect, FlashKeptOutside, FootFrom, FootTo;
    p.address := record.address;
    if record.kind == OptionBytes {
      err := WriteOptionRecord(p, image, record);
    } else {
      err := WriteFlashRecord(p, image, record, buffer);
    }
  }

  /** Nothing has gone wrong and nothing will: see Erasable and Fine. A record that does not
      erase relies on the error flags having been cleared before it. */
  ghost predicate Ready(p: Programmer, record: Record)
    reads p`deadlines, p`base, p.dbg
  {
    p.Erasable() && (record.eraseOptions == 1 || p.Fine())
  }

  /** One record of the batch: written, then read back. */
  method ProcessRecord(p: Programmer, image: seq<byte>, record: Record, buffer: array<byte>) returns (err: Error)
    requires p.Steady() && Programmable(image, record) && buffer.Length == IO_CHUNK
    requires record.kind == Flash ==> p.spi.restoreBlocked && p.destructiveStarted
    modifies p.dbg, p.spi`restoreBlocked, buffer, p`log, p`dirty, p`waits, p`address, p`destructiveStarted,
      p`programmedBytes, p`verifiedBytes
    ensures p.Calm() && (err == NoError ==> p.Steady())
    ensures old(p.Exposed()) ==> p.Exposed()
    ensures old(p.Unguarded() && !p.destructiveStarted) && p.destructiveStarted ==> p.Exposed()
    ensures old(p.Safe()) ==> p.Safe()
    ensures old(p.Strict()) ==> p.Strict()
    ensures old(p.dbg.Prompt()) ==> p.destructiveStarted
    ensures p.Marked(old(p.spi.restoreBlocked), old(p.destructiveStarted), err)
    ensures KeptByRecord(old(p.Dev()), p.Dev(), record)
    ensures err == NoError ==> Retained(image, MemoryOf(p.Dev()), record)
    ensures err == NoError ==> p.programmedBytes == old(p.programmedBytes) + record.payloadSize
    ensures err == NoError ==> p.verifiedBytes == old(p.verifiedBytes) + record.payloadSize
    ensures old(Ready(p, record) && p.Dev().Shaped()) ==>
      && p.Dev().Shaped() && MemoryOf(p.Dev()) == RecordEffect(image, MemoryOf(old(p.Dev())), record)
      && (err == NoError <==> Retained(image, MemoryOf(p.Dev()), record))
      && (err == NoError ==> p.Fine() && p.Erasable())
  {
    hide Link.Prompt, Programmer.Calm, Programmer.Steady, Patient, SoundBus, Supported, RecordEffect, KeptByRecord,
      Retains, AllBlocked, AllStarted, View, InFlash, InOption, Link.Valid, Link.Coherent, Programmer.Kept;
    err := WriteRecord(p, image, record, buffer);
    if err == NoError {
      ProgrammableBounds(image, record);
      p.SteadyIsCalm();
      p.CalmShape();
      err := p.VerifyRecord(image, record, buffer);
    }
  }

  // ---- all records in turn ------------------------------------------------------------------------

  /** No record processed before the k-th erases into record i after its turn. */
  ghost predicate Undisturbed(rs: seq<Record>, i: nat, k: nat)
    requires i < k <= |rs|
  {
    rs[i].kind == Flash ==> forall j | i < j < k :: Spares(rs[i], rs[j])
  }

  /** Every processed record that no later one erased into still reads as its payload. */
  ghost predicate HeldSoFar(image: seq<byte>, rs: seq<Record>, k: nat, m: Memory)
    requires k <= |rs|
  {
    forall i | 0 <= i < k && Undisturbed(rs, i, k) :: Retained(image, m, rs[i])
  }

  /** Flash outside the sectors and words of the batch is as it was. */
  ghost predicate OthersKept(rs: seq<Record>, m: Memory, m': Memory) {
    && |m.flash| == |m'.flash|
    && forall x | 0 <= x < |m.flash| && !InFootprint(rs, x) :: m'.flash[x] == m.flash[x]
  }

  ghost predicate InFootprint(rs: seq<Record>, x: int) {
    exists i :: 0 <= i < |rs| && rs[i].kind == Flash && FootFrom(rs[i]) <= x < FootTo(rs[i])
  }

  lemma OthersStep(rs: seq<Record>, k: nat, m: Memory, d: Device, d': Device)
    requires k < |rs| && OthersKept(rs, m, MemoryOf(d)) && KeptByRecord(d, d', rs[k])
    ensures OthersKept(rs, m, MemoryOf(d'))
  {
    hide FootFrom, FootTo;
    forall x | 0 <= x < |d.flash| && !InFootprint(rs, x) ensures d'.flash[x] == m.flash[x] {}
  }

  /** One more record processed. */
  lemma HeldStep(image: seq<byte>, rs: seq<Record>, k: nat, d: Device, d': Device)
    requires BatchRecords(image, rs) && k < |rs| && d'.Shaped()
    requires HeldSoFar(image, rs, k, MemoryOf(d)) && KeptByRecord(d, d', rs[k])
    requires Retained(image, MemoryOf(d'), rs[k])
    ensures HeldSoFar(image, rs, k + 1, MemoryOf(d'))
  {
    hide Retained, Spares, KeptByRecord, Programmable, Disjoint;
    forall i | 0 <= i < k + 1 && Undisturbed(rs, i, k + 1) ensures Retained(image, MemoryOf(d'), rs[i]) {
      if i < k {
        assert Undisturbed(rs, i, k);
        StillHeld(image, rs[i], rs[k], d, d');
      }
    }
  }

  lemma StillHeld(image: seq<byte>, earlier: Record, later: Record, d: Device, d': Device)
    requires Programmable(image, earlier) && Programmable(image, later) && d'.Shaped()
    requires later.kind == Flash && (earlier.kind == Flash ==> Disjoint(earlier, later) && Spares(earlier, later))
    requires Retained(image, MemoryOf(d), earlier) && KeptByRecord(d, d', later)
    ensures Retained(image, MemoryOf(d'), earlier)
  {
    hide FootFrom, FootTo, Spares, Disjoint, Fields, PayloadOf, Programmable, KeptByRecord, Stored;
    if earlier.kind == Flash {
      FlashStays(image, earlier, later, d, d');
    } else {
      OptionStays(image, earlier, later, d, d');
    }
  }

  lemma FlashStays(image: seq<byte>, earlier: Record, later: Record, d: Device, d': Device)
    requires Programmable(image, earlier) && Programmable(image, later) && MemoryOf(d').Shaped() && MemoryOf(d).Shaped()
    requires later.kind == Flash && earlier.kind == Flash && Disjoint(earlier, later) && Spares(earlier, later)
    requires KeptByRecord(d, d', later)
    ensures Stored(MemoryOf(d'), earlier.address, earlier.payloadSize) == Stored(MemoryOf(d), earlier.address, earlier.payloadSize)
  {
    hide FootFrom, FootTo, Spares, Disjoint, Fields, PayloadOf, SupportedRunFlags;
    var from, to := earlier.address - FLASH_BASE, earlier.AddressEnd() - FLASH_BASE;
    forall x | from <= x < to ensures d'.flash[x] == d.flash[x] {
      FootprintSpares(earlier, later, x);
    }
    ProgrammableBounds(image, earlier);
    assert d'.flash[from..to] == d.flash[from..to];
  }

  lemma OptionStays(image: seq<byte>, earlier: Record, later: Record, d: Device, d': Device)
    requires Programmable(image, earlier) && MemoryOf(d').Shaped() && MemoryOf(d).Shaped()
    requires later.kind == Flash && earlier.kind == OptionBytes && KeptByRecord(d, d', later)
    ensures Stored(MemoryOf(d'), earlier.address, earlier.payloadSize) == Stored(MemoryOf(d), earlier.address, earlier.payloadSize)
  {
    hide Fields, PayloadOf;
    ProgrammableBounds(image, earlier);
  }

  /** The clean-run account after k records: memory as the replay predicts, all verified. */
  ghost predicate OnSchedule(p: Programmer, image: seq<byte>, m: Memory, rs: seq<Record>, k: nat)
    requires k <= |rs| && AllProgrammable(image, rs) && m.Shaped()
    reads p`deadlines, p`base, p.dbg
  {
    && p.Erasable() && (k > 0 ==> p.Fine()) && p.Dev().Shaped()
    && MemoryOf(p.Dev()) == Replay(image, m, rs[..k])
    && forall i | 0 <= i < k :: Retained(image, Replay(image, m, rs[..i + 1]), rs[i])
  }

  /** All records of a batch, stopping at the first failure. */
  method ProcessBatch(p: Programmer, image: seq<byte>, rs: seq<Record>, buffer: array<byte>) returns (err: Error)
    requires p.Steady() && p.Dev().Shaped() && BatchRecords(image, rs) && buffer.Length == IO_CHUNK
    modifies p.dbg, p.spi`restoreBlocked, buffer, p`log, p`dirty, p`waits, p`address, p`destructiveStarted,
      p`programmedBytes, p`verifiedBytes
    ensures p.Calm() && (err == NoError ==> p.Steady())
    ensures old(p.Exposed()) ==> p.Exposed()
    ensures old(p.Unguarded() && !p.destructiveStarted) && p.destructiveStarted ==> p.Exposed()
    ensures old(p.Safe()) ==> p.Safe()
    ensures old(p.Strict()) ==> p.Strict()
    ensures old(p.dbg.Prompt()) ==> p.destructiveStarted
    ensures p.Marked(old(p.spi.restoreBlocked), old(p.destructiveStarted), err)
    ensures OthersKept(rs, old(MemoryOf(p.Dev())), MemoryOf(p.Dev()))
    ensures err == NoError ==> HeldSoFar(image, rs, |rs|, MemoryOf(p.Dev()))
    ensures err == NoError ==> p.programmedBytes == old(p.programmedBytes) + Total(rs)
    ensures err == NoError ==> p.verifiedBytes == old(p.verifiedBytes) + Total(rs)
    ensures old(p.Erasable()) ==>
      && (err == NoError <==> VerifiesThroughout(image, old(MemoryOf(p.Dev())), rs))
      && (err == NoError ==> p.Fine() && MemoryOf(p.Dev()) == Replay(image, old(MemoryOf(p.Dev())), rs))
  {
    hide Link.Prompt, Programmer.Calm, Programmer.Steady, Programmer.Fine, Programmer.Erasable, Programmer.Safe, Programmer.Strict, Programmer.Exposed,
      KeptByRecord, Retained, Programmable, RecordEffect, Replay, FlashFrom, HeldSoFar, OthersKept;
    ghost var m := MemoryOf(p.Dev());
    NothingYet(image, rs, m);
    p.SteadyIsCalm();
    var index := 0;
    err := NoError;
    while index < |rs|
      invariant 0 <= index <= |rs| && err == NoError
      invariant p.Calm() && p.Steady() && p.Dev().Shaped()
      invariant old(p.Exposed()) ==> p.Exposed()
      invariant index == 0 ==> p.Unguarded() == old(p.Unguarded()) && p.dbg.Prompt() == old(p.dbg.Prompt())
      invariant index > 0 && old(p.Unguarded() && !p.destructiveStarted) ==> p.Exposed()
      invariant old(p.Safe()) ==> p.Safe()
      invariant old(p.Strict()) ==> p.Strict()
      invariant index > 0 ==> p.spi.restoreBlocked && p.destructiveStarted
      invariant index == 0 ==>
        p.spi.restoreBlocked == old(p.spi.restoreBlocked) && p.destructiveStarted == old(p.destructiveStarted)
      invariant OthersKept(rs, m, MemoryOf(p.Dev()))
      invariant HeldSoFar(image, rs, index, MemoryOf(p.Dev()))
      invariant p.programmedBytes == old(p.programmedBytes) + Total(rs[..index])
      invariant p.verifiedBytes == old(p.verifiedBytes) + Total(rs[..index])
      invariant old(p.Erasable()) ==> OnSchedule(p, image, m, rs, index)
      decreases |rs| - index
    {
      ghost var d := p.Dev();
      TurnOf(image, m, rs, index);
      err := ProcessRecord(p, image, rs[index], buffer);
      p.CalmShape();
      OthersStep(rs, index, m, d, p.Dev());
      if err != NoError {
        assert old(p.Erasable()) ==> !Retained(image, Replay(image, m, rs[..index + 1]), rs[index]);
        return;
      }
      HeldStep(image, rs, index, d, p.Dev());
      index := index + 1;
      p.SteadyIsCalm();
    }
    assert rs[..|rs|] == rs;
  }

  lemma NothingYet(image: seq<byte>, rs: seq<Record>, m: Memory)
    requires m.Shaped()
    ensures OthersKept(rs, m, m) && HeldSoFar(image, rs, 0, m) && Total(rs[..0]) == 0
    ensures AllProgrammable(image, rs[..0]) && Replay(image, m, rs[..0]) == m
  {}

  lemma TurnOf(image: seq<byte>, m: Memory, rs: seq<Record>, k: nat)
    requires BatchRecords(image, rs) && k < |rs| && m.Shaped()
    ensures Programmable(image, rs[k]) && (rs[k].kind == OptionBytes <==> k == 0)
    ensures k == 0 ==> rs[k].eraseOptions == 1
    ensures Total(rs[..k + 1]) == Total(rs[..k]) + rs[k].payloadSize
    ensures Replay(image, m, rs[..k + 1]) == RecordEffect(image, Replay(image, m, rs[..k]), rs[k])
  {
    hide RecordEffect, Supported;
    assert rs[..k + 1][..k] == rs[..k];
  }

  /** If no erase reaches back, every record of the batch is in place at the end. */
  lemma AllHeld(image: seq<byte>, rs: seq<Record>, m: Memory)
    requires IsBatch(image, rs) && HeldSoFar(image, rs, |rs|, m) && EarlierSpared(rs)
    ensures forall i | 0 <= i < |rs| :: Retained(image, m, rs[i])
  {
    hide Retained, Spares, IsBatch;
    BatchProgrammable(image, rs);
    forall i | 0 <= i < |rs| ensures Retained(image, m, rs[i]) {
      RecordKinds(image, rs, i);
      assert Undisturbed(rs, i, |rs|);
    }
  }

  lemma RecordKinds(image: seq<byte>, rs: seq<Record>, i: nat)
    requires BatchRecords(image, rs) && i < |rs|
    ensures rs[i].kind == Flash <==> i > 0
  {
    hide Programmable;
  }
}
