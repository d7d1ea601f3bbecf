/** The firmware's link to the companion MCU: entering and leaving its mode, numbered
    commands, and requests cut into chunks. Frames and their checks stand for the reply
    that a fate delivers. */
module McuTransport {
  import opened Bytes
  import opened Errors

  const MAX_PAYLOAD: nat := 8192
  const STREAM_CHUNK: nat := 4096

  datatype Preference = Auto | Legacy | Mcu | Cpld

  datatype Active = UnknownLink | LegacyLink | McuLink | CpldLink

  /** What goes out to switch modes; the first frees the bus of an earlier stream. */
  datatype Key = ReleaseBus | EnterKey | ExitKey

  datatype Opcode =
    | Ping | Echo | StreamBegin | RomRead | RamRead | GbcRead | RomWrite | RamWrite | GbcWrite | RomProgram | GbcRomProgram
  {
    /** Cartridge ROM is addressed in 16-bit words. */
    predicate Words() { RomRead? || RomWrite? }

    predicate Reading() { RomRead? || RamRead? || GbcRead? }

    predicate Writing() { RomWrite? || RamWrite? || GbcWrite? }

    function Code(): byte {
      match this
      case Ping => 0x01
      case Echo => 0x02
      case StreamBegin => 0x20
      case RomProgram => 0xf4
      case RomWrite => 0xf5
      case RomRead => 0xf6
      case RamWrite => 0xf7
      case RamRead => 0xf8
      case GbcWrite => 0xfa
      case GbcRead => 0xfb
      case GbcRomProgram => 0xfc
    }
  }

  /** What a stream's opening command says: operation, write buffer, address and size. */
  function Descriptor(opcode: Opcode, bufferBytes: nat, address: u32, size: u32): (d: seq<byte>)
    ensures |d| == 12
  {
    [opcode.Code(), 0, Lane(bufferBytes), Lane(bufferBytes / 0x100)] + LowBytes(ToWord(address), 4) + LowBytes(ToWord(size), 4)
  }

  /** What a response frame says once it has passed its checks. */
  datatype Reply = Reply(decoded: Error, sequence: u32, opcode: Opcode, status: Error, payload: seq<byte>, result: u32)

  /** What the MCU is sent, and the room there is for its answer. */
  datatype Ask = Ask(opcode: Opcode, number: u32, payload: seq<byte>, room: nat)

  /** How one step on the bus fares, and what the MCU would answer at it. */
  datatype Fate = Fate(
    spi: Error, memory: bool, known: bool, mode: bool, error: bool, busy: bool, ready: bool, answer: Ask -> Reply)

  /** A command that the MCU has carried out, its answer, and under which number. */
  datatype Command = Command(opcode: Opcode, request: seq<byte>, answer: seq<byte>, result: u32, sequence: u32)

  // ---- what the MCU reads --------------------------------------------------------------------------

  /** A stream's opening command, as its receiver reads it: operation, write buffer, address, size. */
  predicate Opens(d: seq<byte>, opcode: Opcode, bufferBytes: nat, address: u32, size: nat) {
    && |d| == 12 && d[0] == opcode.Code() && d[1] == 0
    && Half(d, 2) == bufferBytes % 0x1_0000
    && FromWord(WordAt(d, 4)) == address && FromWord(WordAt(d, 8)) == size
  }

  /** A read's request, as its receiver reads it. */
  predicate Names(d: seq<byte>, address: u32, size: nat) {
    |d| == 6 && FromWord(WordAt(d, 0)) == address && Half(d, 4) == size
  }

  /** A write's request, as its receiver reads it. */
  predicate Carries(d: seq<byte>, address: u32, bytes: seq<byte>) {
    |d| >= 4 && FromWord(WordAt(d, 0)) == address && d[4..] == bytes
  }

  /** A little-endian half-word. */
  function Half(d: seq<byte>, at: nat): (n: nat)
    requires at + 2 <= |d|
    ensures n < 0x1_0000
  {
    Value(d[at]) + 0x100 * Value(d[at + 1])
  }

  /** Different operations have different codes. */
  lemma CodesDiffer(a: Opcode, b: Opcode)
    ensures a.Code() == b.Code() ==> a == b
  {}

  function ReadRequest(address: u32, size: nat): (d: seq<byte>)
    ensures |d| == 6
  {
    LowBytes(ToWord(address), 4) + [Lane(size), Lane(size / 0x100)]
  }

  function WriteRequest(address: u32, bytes: seq<byte>): (d: seq<byte>)
    ensures |d| == 4 + |bytes|
  {
    LowBytes(ToWord(address), 4) + bytes
  }

  lemma DescriptorOpens(opcode: Opcode, bufferBytes: nat, address: u32, size: u32)
    ensures Opens(Descriptor(opcode, bufferBytes, address, size), opcode, bufferBytes, address, size)
  {
    hide Lane, Value, ToWord, FromWord, Opcode.Code;
    var d := Descriptor(opcode, bufferBytes, address, size);
    WordRoundTrip(address);
    WordRoundTrip(size);
    HalfLanes(bufferBytes);
    assert WordAt(d, 4) == ToWord(address) && WordAt(d, 8) == ToWord(size);
  }

  lemma HalfLanes(n: nat)
    ensures Value(Lane(n)) + 0x100 * Value(Lane(n / 0x100)) == n % 0x1_0000
  {
    hide Lane, Value;
    LaneValue(n);
    LaneValue(n / 0x100);
    TwoDigits(n);
  }

  lemma TwoDigits(n: nat)
    ensures n % 0x100 + 0x100 * ((n / 0x100) % 0x100) == n % 0x1_0000
  {
    var a, b := n / 0x100, n / 0x1_0000;
    assert a / 0x100 == b;
    assert n == 0x100 * a + n % 0x100 && a == 0x100 * b + a % 0x100;
  }

  lemma ReadNames(address: u32, size: nat)
    requires size < 0x1_0000
    ensures Names(ReadRequest(address, size), address, size)
  {
    hide Lane, Value, ToWord, FromWord;
    var d := ReadRequest(address, size);
    WordRoundTrip(address);
    HalfLanes(size);
    assert WordAt(d, 0) == ToWord(address);
  }

  lemma WriteCarries(address: u32, bytes: seq<byte>)
    ensures Carries(WriteRequest(address, bytes), address, bytes)
  {
    hide Lane, Value, ToWord, FromWord;
    var d := WriteRequest(address, bytes);
    WordRoundTrip(address);
    assert WordAt(d, 0) == ToWord(address) && d[4..] == bytes;
  }

  // ---- an MCU that answers ----------------------------------------------------------------------------

  /** The answer that the protocol promises to a request. */
  ghost predicate Obliges(a: Ask, r: Reply, offered: bv32) {
    && Sound(a, r)
    && (a.opcode == Ping && a.room >= 16 ==> |r.payload| == 16 && r.payload[..8] == GREETING && r.result as bv32 == offered)
    && (a.opcode == StreamBegin ==> r.result == STREAM_CHUNK)
    && (a.opcode.Reading() ==> |r.payload| == a.room)
    && (a.opcode.Writing() && 4 <= |a.payload| <= MAX_PAYLOAD ==> r.result == |a.payload| - 4)
    && (a.opcode == Echo && |a.payload| <= a.room ==> r.payload == a.payload)
  }

  /** Protocol version one, and the largest payload. */
  const GREETING: seq<byte> := [1, 0, 0, 0, 0, 0x20, 0, 0]

  /** No transfer fails, nothing is overdue, and the MCU answers as promised. */
  ghost predicate Calm(fates: nat -> Fate, offered: bv32) {
    forall t: nat :: CalmAt(fates(t), offered)
  }

  ghost predicate CalmAt(f: Fate, offered: bv32) {
    && f.spi == NoError && f.memory && f.known && f.mode && !f.error && !f.busy && f.ready
    && forall a: Ask :: Obliges(a, f.answer(a), offered)
  }

  function Number(flags: bv32): (n: u32)
    ensures n as bv32 == flags
  {
    flags as int
  }

  function PromisedPayload(a: Ask): seq<byte> {
    if a.opcode == Ping && a.room >= 16 then GREETING + seq(8, i => 0)
    else if a.opcode.Reading() then seq(a.room, i => ERASED)
    else if a.opcode == Echo && |a.payload| <= a.room then a.payload
    else []
  }

  function PromisedResult(a: Ask, flags: u32): u32 {
    if a.opcode == StreamBegin then STREAM_CHUNK
    else if a.opcode.Writing() && 4 <= |a.payload| <= MAX_PAYLOAD then |a.payload| - 4
    else flags
  }

  /** An MCU that answers every request as promised. */
  function Promised(a: Ask, offered: bv32): Reply {
    Reply(NoError, a.number, a.opcode, NoError, PromisedPayload(a), PromisedResult(a, Number(offered)))
  }

  /** Undisturbed links exist, whatever the MCU can do. */
  lemma CalmExists(offered: bv32)
    ensures Calm(_ => Fate(NoError, true, true, true, false, false, true, a => Promised(a, offered)), offered)
  {
    hide Obliges, Promised;
    forall a: Ask ensures Obliges(a, Promised(a, offered), offered) {
      PromiseKept(a, offered);
    }
  }

  lemma PromiseKept(a: Ask, offered: bv32)
    ensures Obliges(a, Promised(a, offered), offered)
  {
    hide Number;
    GreetingFirst(seq(8, i => 0));
  }

  lemma GreetingFirst(rest: seq<byte>)
    requires |rest| == 8
    ensures |GREETING + rest| == 16 && (GREETING + rest)[..8] == GREETING
  {}

  lemma CalmHere(fates: nat -> Fate, offered: bv32, t: nat)
    ensures Calm(fates, offered) ==> CalmAt(fates(t), offered) && fates(t).spi == NoError && fates(t).memory
  {}

  lemma Obliging(a: Ask, r: Reply, offered: bv32)
    requires Obliges(a, r, offered)
    ensures a.opcode == StreamBegin ==> r.result == STREAM_CHUNK
    ensures a.opcode.Reading() ==> |r.payload| == a.room
    ensures a.opcode.Writing() && 4 <= |a.payload| <= MAX_PAYLOAD ==> r.result == |a.payload| - 4
    ensures a.opcode == Echo && |a.payload| <= a.room ==> r.payload == a.payload
  {}

  lemma CalmGives(f: Fate, offered: bv32, a: Ask)
    ensures CalmAt(f, offered) ==> Obliges(a, f.answer(a), offered) && Sound(a, f.answer(a))
    ensures CalmAt(f, offered) ==> f.answer(a).decoded == NoError && f.answer(a).status == NoError
  {}

  /** A sound answer to this very request. */
  predicate Sound(a: Ask, r: Reply) {
    r.decoded == NoError && r.status == NoError && r.sequence == a.number && r.opcode == a.opcode && |r.payload| <= a.room
  }

  /** Everything that is required is offered. */
  predicate Offers(offered: bv32, required: bv32) { offered & required == required }

  /** Each number differs from zero and from the one before. */
  ghost predicate Numbered(sent: seq<u32>, last: u32) {
    && (forall i | 0 <= i < |sent| :: sent[i] != 0)
    && (forall i | 0 < i < |sent| :: sent[i] != sent[i - 1])
    && (sent != [] ==> sent[|sent| - 1] == last)
  }

  /** Bytes left in MCU mode by nobody: no key was sent, or the last one was the exit key. */
  ghost predicate Left(before: seq<Key>, after: seq<Key>) {
    before <= after && (|after| > |before| ==> after[|after| - 1] == ExitKey)
  }

  /** A status from the MCU, in its mode and without error, that the next step waits for. */
  predicate Shows(f: Fate, response: bool) {
    f.spi == NoError && f.known && f.mode && !f.error && if response then f.ready else !f.busy
  }

  /** A request sent on an idle link. */
  predicate RequestSent(fates: nat -> Fate, t: nat) {
    t > 0 && Shows(fates(t - 1), false) && fates(t).spi == NoError
  }

  lemma SentAt(fates: nat -> Fate, t: nat)
    ensures t > 0 && Shows(fates(t - 1), false) && fates(t).spi == NoError ==> RequestSent(fates, t)
  {}

  /** A request sent on an idle link, then its sound response read once it was announced. */
  ghost predicate Exchanged(fates: nat -> Fate, from: nat, to: nat, ask: Ask, reply: Reply) {
    && to > from + 1 && Shows(fates(to - 2), true) && fates(to - 1).spi == NoError
    && reply == fates(to - 1).answer(ask) && Sound(ask, reply)
    && exists t :: from < t < to - 1 && RequestSent(fates, t)
  }

  lemma AllExchanged(fates: nat -> Fate, from: nat, t: nat, to: nat, ask: Ask, reply: Reply)
    requires from < t < to - 1 && RequestSent(fates, t) && Shows(fates(to - 2), true) && fates(to - 1).spi == NoError
    requires reply == fates(to - 1).answer(ask) && Sound(ask, reply)
    ensures Exchanged(fates, from, to, ask, reply)
  {
    hide RequestSent, Shows, Sound;
  }

  lemma ExchangedSound(fates: nat -> Fate, early: nat, from: nat, to: nat, ask: Ask, reply: Reply)
    requires early <= from && Exchanged(fates, from, to, ask, reply)
    ensures Exchanged(fates, early, to, ask, reply) && Sound(ask, reply)
  {
    hide RequestSent, Shows, Sound;
  }

  class Link {
    var preference: Preference
    var active: Active
    var capabilities: bv32
    var known: bool
    var sequence: u32

    var fates: nat -> Fate
    ghost var offered: bv32        // what the MCU can do
    var clock: nat
    var patience: nat -> nat       // further polls a wait affords before its deadline
    ghost var keys: seq<Key>       // mode keys sent
    ghost var sent: seq<u32>       // numbers given to commands
    ghost var done: seq<Command>   // commands carried out
    ghost var poured: seq<byte>    // payload bytes sent in streams
    ghost var drawn: seq<byte>     // payload bytes accepted from streams

    /** The MCU has been asked and understood, or not asked yet. */
    ghost predicate Informed()
      reads this`known, this`capabilities, this`offered
    {
      known ==> capabilities == offered
    }

    method Tick() returns (f: Fate)
      modifies this`clock
      ensures f == fates(old(clock)) && clock == old(clock) + 1
    {
      f := fates(clock);
      clock := clock + 1;
    }

    method ReadStatus() returns (err: Error, f: Fate)
      modifies this`clock
      ensures clock == old(clock) + 1 && f == fates(old(clock))
      ensures err == NoError <==> f.spi == NoError && f.known && f.mode
      ensures err == Timeout ==> f.spi == Timeout
    {
      f := Tick();
      if f.spi != NoError {
        return f.spi, f;
      }
      if !f.known {
        return NotFound, f;
      }
      err := if f.mode then NoError else InvalidState;
    }

    method EnterMode() returns (err: Error)
      modifies this`clock, this`keys
      ensures keys == old(keys) + [ReleaseBus] || keys == old(keys) + [ReleaseBus, EnterKey]
      ensures Calm(fates, offered) ==> err == NoError
      ensures err == NoError ==> keys == old(keys) + [ReleaseBus, EnterKey] && clock > 0 && fates(clock - 1).mode
    {
      var f := Tick();
      keys := keys + [ReleaseBus];
      err := f.spi;
      if err == NoError {
        f := Tick();
        keys := keys + [EnterKey];
        err := f.spi;
      }
      if err == NoError {
        err, f := ReadStatus();
      }
    }

    method ExitMode() returns (err: Error)
      modifies this`clock, this`keys
      ensures keys == old(keys) + [ExitKey]
      ensures Calm(fates, offered) ==> err == NoError
    {
      var f := Tick();
      keys := keys + [ExitKey];
      err := f.spi;
    }

    /** Waits until a request may be sent, or until its response is there. */
    method WaitReady(response: bool) returns (err: Error)
      modifies this`clock
      ensures clock > old(clock)
      ensures err == NoError ==> Shows(fates(clock - 1), response)
      ensures err == Timeout ==> clock == old(clock) + patience(old(clock)) + 1 || fates(clock - 1).spi == Timeout
      ensures Calm(fates, offered) ==> err == NoError
    {
      var left := patience(clock);
      while true
        invariant clock >= old(clock) && clock + left == old(clock) + patience(old(clock))
        decreases left
      {
        var f;
        err, f := ReadStatus();
        if err != NoError {
          return;
        }
        if f.error {
          return InvalidResponse;
        }
        if if response then f.ready else !f.busy {
          return NoError;
        }
        if left == 0 {
          return Timeout;
        }
        left := left - 1;
      }
    }

    /** Takes the next number; zero is left out. */
    method NextNumber()
      requires Numbered(sent, sequence)
      modifies this`sequence, this`sent
      ensures Numbered(sent, sequence) && sent == old(sent) + [sequence]
      ensures sequence == if old(sequence) == 0xffff_ffff then 1 else old(sequence) + 1
    {
      sequence := (sequence + 1) % 0x1_0000_0000;
      if sequence == 0 {
        sequence := sequence + 1;
      }
      sent := sent + [sequence];
    }

    /** A request out on an idle link, and its answer in once it is announced. */
    method Converse(ask: Ask) returns (err: Error, reply: Reply)
      modifies this`clock
      ensures clock > old(clock)
      ensures err == NoError ==> Exchanged(fates, old(clock), clock, ask, reply)
      ensures Calm(fates, offered) ==> err == NoError && Obliges(ask, reply, offered)
    {
      hide Shows, RequestSent, Calm, CalmAt, Obliges, Exchanged;
      reply := Reply(Fail, 0, ask.opcode, Fail, [], 0);
      err := WaitReady(false);
      if err != NoError { return; }
      ghost var t := clock;
      CalmHere(fates, offered, clock);
      var f := Tick();
      if f.spi != NoError { return f.spi, reply; }
      err := WaitReady(true);
      if err != NoError { return; }
      CalmHere(fates, offered, clock);
      f := Tick();
      if f.spi != NoError { return f.spi, reply; }
      CalmGives(f, offered, ask);
      reply := f.answer(ask);
      err := reply.decoded;
      if err != NoError { return; }
      if reply.sequence != ask.number || reply.opcode != ask.opcode {
        return InvalidResponse, reply;
      }
      err := reply.status;
      if err != NoError { return; }
      if |reply.payload| > ask.room {
        return InvalidSize, reply;
      }
      SentAt(fates, t);
      AllExchanged(fates, old(clock), t, clock, ask, reply);
    }

    /** One command in MCU mode. It succeeds only on a sound reply to this very command. */
    method CommandInMode(opcode: Opcode, request: seq<byte>, capacity: nat) returns (err: Error, reply: Reply)
      requires Numbered(sent, sequence)
      modifies this`clock, this`sequence, this`sent, this`done
      ensures Numbered(sent, sequence) && old(sent) <= sent
      ensures err != NoError ==> done == old(done)
      ensures err == NoError ==>
        && reply.sequence == sequence && reply.opcode == opcode && |reply.payload| <= capacity
        && done == old(done) + Carried(opcode, request, reply, sequence)
      ensures err == NoError ==> Exchanged(fates, old(clock), clock, Ask(opcode, sequence, request, capacity), reply)
      ensures Calm(fates, offered) && |request| <= MAX_PAYLOAD && capacity <= MAX_PAYLOAD ==>
        err == NoError && Obliges(Ask(opcode, sequence, request, capacity), reply, offered)
    {
      hide Numbered, Carried, Calm, CalmAt, Obliges, Exchanged;
      CalmHere(fates, offered, clock);
      var f := Tick();
      reply := Reply(Fail, 0, opcode, Fail, [], 0);
      if |request| > MAX_PAYLOAD || capacity > MAX_PAYLOAD {
        return InvalidArg, reply;
      }
      if !f.memory {
        return NoMem, reply;
      }
      NextNumber();
      ghost var from := clock;
      err, reply := Converse(Ask(opcode, sequence, request, capacity));
      if err == NoError {
        done := done + Carried(opcode, request, reply, sequence);
        ExchangedSound(fates, old(clock), from, clock, Ask(opcode, sequence, request, capacity), reply);
      }
    }

    /** Asks the MCU once what it can do. */
    method Negotiate() returns (err: Error)
      requires Numbered(sent, sequence)
      modifies this`clock, this`sequence, this`sent, this`done, this`keys, this`active, this`capabilities, this`known
      ensures Numbered(sent, sequence) && old(sent) <= sent && known
      ensures |keys| > |old(keys)| && Left(old(keys), keys)
      ensures done == old(done)
      ensures err != NoError ==> capabilities == 0
      ensures Calm(fates, offered) ==> err == NoError && Informed()
    {
      hide Exchanged, Shows, Numbered, Calm;
      var reply := Reply(Fail, 0, Ping, Fail, [], 0);
      err := EnterMode();
      if err == NoError {
        active := McuLink;
        err, reply := CommandInMode(Ping, [], 16);
      }
      var exit := ExitMode();
      if err == NoError {
        err := exit;
      }
      known := true;
      if err == NoError && |reply.payload| == 16 && reply.payload[..8] == GREETING {
        capabilities := reply.result as bv32;
        return NoError;
      }
      capabilities := 0;
      if err == NoError {
        err := InvalidResponse;
      }
    }

    /** One command, entering and leaving the MCU's mode around it. A stream stays in it. */
    method InMode(opcode: Opcode, request: seq<byte>, capacity: nat) returns (err: Error, reply: Reply)
      requires Numbered(sent, sequence)
      modifies this`clock, this`sequence, this`sent, this`done, this`keys, this`active
      ensures Numbered(sent, sequence) && old(sent) <= sent && old(keys) <= keys
      ensures err != NoError || opcode != StreamBegin ==> Left(old(keys), keys)
      ensures err == NoError ==>
        && reply.sequence == sequence && reply.opcode == opcode && |reply.payload| <= capacity
        && done == old(done) + Carried(opcode, request, reply, sequence)
      ensures err == NoError ==> active == McuLink
      ensures Calm(fates, offered) && |request| <= MAX_PAYLOAD && capacity <= MAX_PAYLOAD ==>
        err == NoError && Obliges(Ask(opcode, sequence, request, capacity), reply, offered)
    {
      hide Exchanged, Shows, Numbered, Carried, Calm, Obliges, Sound;
      reply := Reply(Fail, 0, opcode, Fail, [], 0);
      err := EnterMode();
      if err == NoError {
        active := McuLink;
        err, reply := CommandInMode(opcode, request, capacity);
      }
      var exit := NoError;
      if !(err == NoError && opcode == StreamBegin) {
        exit := ExitMode();
      }
      if exit != NoError {
        active := UnknownLink;
        if err == NoError {
          err := exit;
        }
      }
    }

    /** One command when the MCU is preferred and can do it; otherwise another path's business. */
    method TryCommand(required: bv32, opcode: Opcode, request: seq<byte>, capacity: nat)
      returns (err: Error, used: bool, reply: Reply)
      requires Numbered(sent, sequence)
      modifies this`clock, this`sequence, this`sent, this`done, this`keys, this`active, this`capabilities, this`known
      ensures Numbered(sent, sequence) && old(sent) <= sent
      ensures used <==> preference == Mcu
      ensures !used ==> err == NoError && keys == old(keys) && done == old(done)
      ensures err != NoError || opcode != StreamBegin ==> Left(old(keys), keys)
      ensures err == NoError ==> old(keys) <= keys
      ensures err == NoError && used ==>
        && reply.sequence == sequence && reply.opcode == opcode && |reply.payload| <= capacity
        && done == old(done) + Carried(opcode, request, reply, sequence) && known && Offers(capabilities, required)
      ensures !used ==> active == LegacyLink
      ensures err == NoError && used ==> active == McuLink
      ensures Calm(fates, offered) && old(Informed()) ==> Informed()
      ensures Calm(fates, offered) && old(Informed()) && used && |request| <= MAX_PAYLOAD && capacity <= MAX_PAYLOAD ==>
        if Offers(offered, required) then err == NoError && Obliges(Ask(opcode, sequence, request, capacity), reply, offered)
        else err == NotSupported
    {
      hide Exchanged, Shows, Numbered, Carried, Calm, Obliges, Offers, Sound;
      reply := Reply(Fail, 0, opcode, Fail, [], 0);
      used := false;
      if preference != Mcu {
        active := LegacyLink;
        return NoError, used, reply;
      }
      used := true;
      if !known {
        err := Negotiate();
        if err != NoError {
          return;
        }
      }
      if !Offers(capabilities, required) {
        return NotSupported, used, reply;
      }
      err, reply := InMode(opcode, request, capacity);
    }

    /** One chunk of a write. */
    method WriteChunk(required: bv32, opcode: Opcode, at: u32, data: seq<byte>, written: nat,
        ghost address: u32, ghost before: seq<Command>)
      returns (err: Error, used: bool, chunk: nat)
      requires Numbered(sent, sequence) && opcode.Writing()
      requires preference == Mcu && written < |data| && written % WRITE_CHUNK == 0
      requires at == Moved(opcode, address, written) && WrittenTo(before, done, opcode, address, data, written)
      modifies this`clock, this`sequence, this`sent, this`done, this`keys, this`active, this`capabilities, this`known
      ensures Numbered(sent, sequence) && old(sent) <= sent && Left(old(keys), keys)
      ensures 0 < chunk && written + chunk <= |data|
      ensures written + chunk == |data| || chunk == WRITE_CHUNK
      ensures err == NoError ==> used && WrittenTo(before, done, opcode, address, data, written + chunk)
      ensures err == NoError ==> active == McuLink
      ensures Calm(fates, offered) && old(Informed()) ==>
        Informed() && err == (if Offers(offered, required) then NoError else NotSupported)
    {
      hide Numbered, Covers, Calm, CalmAt, Offers, Obliges, WriteRequest, Carries, Moved;
      CalmHere(fates, offered, clock);
      used := false;
      LeftSelf(keys);
      chunk := |data| - written;
      if chunk > WRITE_CHUNK {
        chunk := WRITE_CHUNK;
      }
      var f := Tick();
      if !f.memory {
        return NoMem, used, chunk;
      }
      ghost var so := done;
      var reply;
      err, used, reply := TryCommand(required, opcode, WriteRequest(at, data[written..written + chunk]), 0);
      if Calm(fates, offered) && old(Informed()) && Offers(offered, required) {
        Obliging(Ask(opcode, sequence, WriteRequest(at, data[written..written + chunk]), 0), reply, offered);
      }
      if err == NoError {
        if reply.result != chunk {
          return InvalidSize, used, chunk;
        }
        WriteCarries(at, data[written..written + chunk]);
        CoversMore(so[|before|..], done[|before|..], opcode, address, data, written, chunk, done[|so|]);
      }
    }

    /** A write in chunks, one command each. */
    method TryWrite(required: bv32, opcode: Opcode, address: u32, data: seq<byte>) returns (err: Error, used: bool)
      requires Numbered(sent, sequence) && opcode.Writing()
      modifies this`clock, this`sequence, this`sent, this`done, this`keys, this`active, this`capabilities, this`known
      ensures Numbered(sent, sequence) && old(sent) <= sent
      ensures used ==> preference == Mcu
      ensures Left(old(keys), keys)
      ensures preference != Mcu ==> err == NoError && keys == old(keys) && done == old(done)
      ensures err == NoError && preference == Mcu ==> used && WrittenTo(old(done), done, opcode, address, data, |data|)
      ensures preference == Mcu && data == [] ==> err == InvalidArg
      ensures preference != Mcu ==> active == LegacyLink
      ensures err == NoError && preference == Mcu ==> active == McuLink
      ensures Calm(fates, offered) && old(Informed()) && preference == Mcu && data != [] ==>
        err == if Offers(offered, required) then NoError else NotSupported
    {
      hide Numbered, Left, WrittenTo, Calm, Offers, Units, Moved, Covers, Opcode.Writing, Opcode.Reading;
      used := false;
      LeftSelf(keys);
      if preference != Mcu {
        active := LegacyLink;
        return NoError, used;
      }
      if data == [] {
        return InvalidArg, true;
      }
      ghost var before := done;
      NothingWritten(done, opcode, address, data);
      StartsThere(opcode, address);
      var written, at := 0, address;
      while written < |data|
        invariant 0 <= written <= |data|
        invariant written < |data| ==> written % WRITE_CHUNK == 0 && at == Moved(opcode, address, written)
        invariant Numbered(sent, sequence) && old(sent) <= sent && Left(old(keys), keys)
        invariant WrittenTo(before, done, opcode, address, data, written)
        invariant written > 0 ==> used && active == McuLink
        invariant Calm(fates, offered) && old(Informed()) ==> Informed() && (written > 0 ==> Offers(offered, required))
      {
        ghost var k := keys;
        var chunk;
        err, used, chunk := WriteChunk(required, opcode, at, data, written, address, before);
        LeftTrans(old(keys), k, keys);
        if err != NoError {
          return;
        }
        AddressStep(opcode, address, written, chunk);
        if chunk == WRITE_CHUNK {
          NextMultiple(written);
        }
        at := (at + Units(opcode, chunk)) % 0x1_0000_0000;
        written := written + chunk;
      }
      err := NoError;
    }

    /** A block out of an open stream. */
    method PourBlock(bytes: seq<byte>) returns (err: Error)
      modifies this`clock, this`poured
      ensures err == NoError ==> poured == old(poured) + bytes
      ensures Calm(fates, offered) ==> err == NoError
    {
      hide Shows, Calm, CalmAt;
      err := WaitReady(false);
      if err != NoError { return; }
      CalmHere(fates, offered, clock);
      var f := Tick();
      if f.spi != NoError { return f.spi; }
      poured := poured + bytes;
    }

    /** The answer to a block. */
    method BlockAnswer(ask: Ask) returns (err: Error, payload: seq<byte>)
      modifies this`clock
      ensures |payload| == ask.room
      ensures err == NoError ==> Answered(fates, ask, payload)
      ensures Calm(fates, offered) ==>
        err == NoError && (ask.opcode == Echo && |ask.payload| == ask.room ==> payload == ask.payload)
    {
      hide Shows, Fit, Calm, CalmAt, Obliges, Sound, Opcode.Reading, Opcode.Writing;
      payload := Fit([], ask.room);
      err := WaitReady(true);
      if err != NoError { return; }
      ghost var t := clock;
      CalmHere(fates, offered, clock);
      var f := Tick();
      if f.spi != NoError { return f.spi, payload; }
      CalmGives(f, offered, ask);
      var reply := f.answer(ask);
      if CalmAt(f, offered) {
        Obliging(ask, reply, offered);
      }
      err := reply.decoded;
      if err != NoError { return; }
      err := reply.status;
      if err != NoError { return; }
      payload := Fit(reply.payload, ask.room);
      assert payload == Fit(fates(t).answer(ask).payload, ask.room);
    }

    /** One block of a stream: out when the stream is outgoing, then the answer. */
    method StreamBlock(opcode: Opcode, data: array<byte>, offset: nat, chunk: nat) returns (err: Error)
      requires 0 < chunk && offset + chunk <= data.Length
      modifies this`clock, this`poured, this`drawn, data
      ensures data[..offset] == old(data[..offset]) && data[offset + chunk..] == old(data[offset + chunk..])
      ensures !opcode.Reading() || err != NoError ==> data[..] == old(data[..])
      ensures err == NoError ==> Streamed(opcode, old(poured), poured, old(drawn), drawn, data[offset..offset + chunk])
      ensures err == NoError && opcode.Reading() ==> Answered(fates, Ask(opcode, sequence, [], chunk), data[offset..offset + chunk])
      ensures err == NoError && opcode == Echo ==>
        Answered(fates, Ask(opcode, sequence, data[offset..offset + chunk], chunk), data[offset..offset + chunk])
      ensures Calm(fates, offered) ==> err == NoError
    {
      hide Fit, Calm, Opcode.Reading, Answered;
      ghost var was := data[..];
      var out := if opcode.Reading() then [] else data[offset..offset + chunk];
      if !opcode.Reading() {
        err := PourBlock(out);
        if err != NoError { return; }
      }
      EchoOut(opcode);
      var answer;
      err, answer := BlockAnswer(Ask(opcode, sequence, out, chunk));
      if err != NoError { return; }
      if opcode == Echo && answer != data[offset..offset + chunk] {
        return InvalidResponse;
      }
      if opcode.Reading() {
        drawn := drawn + answer;
        forall i | 0 <= i < chunk {
          data[offset + i] := answer[i];
        }
        assert data[offset..offset + chunk] == answer;
        SameEnds(was, data[..], offset, offset + chunk);
      }
    }

    /** All blocks of an open stream. */
    method StreamBlocks(opcode: Opcode, data: array<byte>, size: nat) returns (err: Error, ghost blocks: seq<Block>)
      requires size <= data.Length
      modifies this`clock, this`poured, this`drawn, data
      ensures data[size..] == old(data[size..]) && (!opcode.Reading() ==> data[..] == old(data[..]))
      ensures err == NoError ==> Blocks(blocks, size)
      ensures err == NoError ==> Streamed(opcode, old(poured), poured, old(drawn), drawn, data[..size])
      ensures Calm(fates, offered) ==> err == NoError
    {
      hide Blocks, Fit, Streamed, Opcode.Reading, Calm;
      var offset := 0;
      blocks := [];
      err := NoError;
      NoBlocks();
      StreamedNothing(opcode, poured, drawn, data[..offset]);
      while err == NoError && offset < size
        invariant 0 <= offset <= size && data[size..] == old(data[size..])
        invariant !opcode.Reading() ==> data[..] == old(data[..])
        invariant Blocks(blocks, offset)
        invariant err == NoError ==> Streamed(opcode, old(poured), poured, old(drawn), drawn, data[..offset])
        invariant err == NoError || offset < size
        invariant Calm(fates, offered) ==> err == NoError
        decreases size - offset, err == NoError
      {
        var chunk := size - offset;
        if chunk > STREAM_CHUNK {
          chunk := STREAM_CHUNK;
        }
        ghost var was, sent0, drawn0 := data[..], poured, drawn;
        err := StreamBlock(opcode, data, offset, chunk);
        SameRest(was, data[..], offset + chunk, size);
        if err == NoError {
          NextBlock(blocks, offset, chunk);
          StreamedMore(opcode, old(poured), sent0, poured, old(drawn), drawn0, drawn, data[..], offset, chunk);
          blocks := blocks + [Block(offset, chunk)];
          offset := offset + chunk;
        }
      }
    }

    /** The blocks of a stream that the MCU has opened, and the way out. */
    method RunStream(opcode: Opcode, data: array<byte>, size: nat, blockSize: nat) returns (err: Error, ghost blocks: seq<Block>)
      requires size <= data.Length
      modifies this`clock, this`poured, this`drawn, this`keys, data
      ensures keys == old(keys) + [ExitKey]
      ensures data[size..] == old(data[size..]) && (!opcode.Reading() ==> data[..] == old(data[..]))
      ensures err == NoError ==> Blocks(blocks, size)
      ensures err == NoError ==> Streamed(opcode, old(poured), poured, old(drawn), drawn, data[..size])
      ensures Calm(fates, offered) && blockSize == STREAM_CHUNK ==> err == NoError
    {
      hide Blocks, Streamed, Opcode.Reading, Calm;
      blocks := [];
      if blockSize != STREAM_CHUNK {
        err := InvalidResponse;
      } else {
        err, blocks := StreamBlocks(opcode, data, size);
      }
      var exit := ExitMode();
      if err == NoError {
        err := exit;
      }
    }

    /** A stream: one opening command, then blocks in the mode it leaves open. Every way out
        that sent a key ends with the exit key. */
    method TryStream(required: bv32, opcode: Opcode, address: u32, bufferBytes: nat, data: array<byte>, size: nat)
      returns (err: Error, used: bool, ghost blocks: seq<Block>)
      requires Numbered(sent, sequence) && size <= data.Length
      modifies this`clock, this`sequence, this`sent, this`done, this`keys, this`active, this`capabilities, this`known,
        this`poured, this`drawn, data
      ensures Numbered(sent, sequence) && old(sent) <= sent
      ensures used <==> preference == Mcu
      ensures Left(old(keys), keys)
      ensures !used ==> err == NoError && keys == old(keys)
      ensures !used || !opcode.Reading() ==> data[..] == old(data[..])
      ensures data[size..] == old(data[size..])
      ensures err == NoError && used ==> 0 < size < 0x1_0000_0000 && Blocks(blocks, size)
      ensures err == NoError && used ==>
        && Opened(old(done), done, opcode, bufferBytes, address, size)
        && Streamed(opcode, old(poured), poured, old(drawn), drawn, data[..size])
      ensures if !used then active == LegacyLink else err == NoError ==> active == McuLink
      ensures Calm(fates, offered) && old(Informed()) && used && 0 < size < 0x1_0000_0000 ==>
        err == if Offers(offered, required | 0x80) then NoError else NotSupported
    {
      hide Numbered, Left, Blocks, Streamed, Descriptor, Opens, Calm, CalmAt, Offers, Obliges, Carried, Opened, Opcode.Reading;
      CalmHere(fates, offered, clock);
      used, blocks := false, [];
      LeftSelf(keys);
      if preference != Mcu {
        active := LegacyLink;
        return NoError, used, blocks;
      }
      used := true;
      if size == 0 || size > 0xffff_ffff {
        return InvalidArg, used, blocks;
      }
      var f := Tick();
      if !f.memory {
        return NoMem, used, blocks;
      }
      var reply;
      err, used, reply := TryCommand(required | 0x80, StreamBegin, Descriptor(opcode, bufferBytes, address, size), 0);
      DescriptorOpens(opcode, bufferBytes, address, size);
      OpenedBy(old(done), reply, sequence, Descriptor(opcode, bufferBytes, address, size), opcode, bufferBytes, address, size);
      if err != NoError {
        return;
      }
      if Calm(fates, offered) && old(Informed()) {
        Obliging(Ask(StreamBegin, sequence, Descriptor(opcode, bufferBytes, address, size), 0), reply, offered);
      }
      ghost var open := keys;
      err, blocks := RunStream(opcode, data, size, reply.result);
      LeftByExit(old(keys), open, keys);
    }

    /** A read: short ones by one command, long ones as a stream. */
    method TryRead(required: bv32, opcode: Opcode, address: u32, data: array<byte>, size: nat)
      returns (err: Error, used: bool)
      requires Numbered(sent, sequence) && size <= data.Length && opcode.Reading()
      modifies this`clock, this`sequence, this`sent, this`done, this`keys, this`active, this`capabilities, this`known,
        this`poured, this`drawn, data
      ensures Numbered(sent, sequence) && old(sent) <= sent
      ensures Left(old(keys), keys)
      ensures preference != Mcu ==> err == NoError && !used && keys == old(keys) && data[..] == old(data[..])
      ensures data[size..] == old(data[size..])
      ensures err == NoError && preference == Mcu && size <= STREAM_CHUNK ==>
        used && ReadOnce(old(done), done, opcode, address, data[..size])
      ensures err == NoError && preference == Mcu && size > STREAM_CHUNK ==>
        && used && size < 0x1_0000_0000 && drawn == old(drawn) + data[..size]
        && Opened(old(done), done, opcode, 0, address, size)
      ensures preference == Mcu && size == 0 ==> err == InvalidArg
      ensures preference != Mcu ==> active == LegacyLink
      ensures err == NoError && preference == Mcu ==> active == McuLink
      ensures Calm(fates, offered) && old(Informed()) && preference == Mcu && 0 < size < 0x1_0000_0000 ==>
        err == if Offers(offered, if size > STREAM_CHUNK then required | 0x80 else required) then NoError else NotSupported
    {
      hide Numbered, Left, Opened, Names, Calm, Offers, ReadRequest, Obliges;
      used := false;
      LeftSelf(keys);
      if preference != Mcu {
        active := LegacyLink;
        return NoError, used;
      }
      if size == 0 {
        return InvalidArg, true;
      }
      if size > STREAM_CHUNK {
        ghost var blocks;
        err, used, blocks := TryStream(required, opcode, address, 0, data, size);
        return;
      }
      var reply;
      err, used, reply := TryCommand(required, opcode, ReadRequest(address, size), size);
      ReadNames(address, size);
      if Calm(fates, offered) && old(Informed()) && Offers(offered, required) {
        Obliging(Ask(opcode, sequence, ReadRequest(address, size), size), reply, offered);
      }
      if err != NoError {
        return;
      }
      forall i | 0 <= i < |reply.payload| {
        data[i] := reply.payload[i];
      }
      if |reply.payload| != size {
        return InvalidSize, used;
      }
      assert data[..size] == reply.payload;
    }

    /** Flash programming always goes as a stream. */
    method TryProgram(opcode: Opcode, address: u32, bufferBytes: nat, data: array<byte>, size: nat)
      returns (err: Error, used: bool)
      requires Numbered(sent, sequence) && size <= data.Length && !opcode.Reading()
      modifies this`clock, this`sequence, this`sent, this`done, this`keys, this`active, this`capabilities, this`known,
        this`poured, this`drawn, data
      ensures Numbered(sent, sequence) && old(sent) <= sent
      ensures Left(old(keys), keys) && data[..] == old(data[..])
      ensures preference != Mcu ==> err == NoError && !used && keys == old(keys)
      ensures err == NoError && preference == Mcu ==>
        && used && 0 < size < 0x1_0000_0000 && poured == old(poured) + data[..size]
        && Opened(old(done), done, opcode, bufferBytes, address, size)
      ensures preference == Mcu && size == 0 ==> err == InvalidArg
      ensures preference != Mcu ==> active == LegacyLink
      ensures err == NoError && preference == Mcu ==> active == McuLink
      ensures Calm(fates, offered) && old(Informed()) && preference == Mcu && 0 < size < 0x1_0000_0000 ==>
        err == if Offers(offered, 0x20 | 0x80) then NoError else NotSupported
    {
      hide Numbered, Left, Opened, Calm, Offers;
      used := false;
      LeftSelf(keys);
      if preference != Mcu {
        active := LegacyLink;
        return NoError, used;
      }
      if size == 0 {
        return InvalidArg, true;
      }
      ghost var blocks;
      err, used, blocks := TryStream(0x20, opcode, address, bufferBytes, data, size);
    }
  }

  /** One more command has been carried out, and it opens this stream. */
  ghost predicate Opened(before: seq<Command>, now: seq<Command>, opcode: Opcode, bufferBytes: nat, address: u32, size: nat) {
    && |now| == |before| + 1 && before <= now && now[|before|].opcode == StreamBegin
    && Opens(now[|before|].request, opcode, bufferBytes, address, size)
  }

  lemma OpenedBy(before: seq<Command>, reply: Reply, number: u32, d: seq<byte>, opcode: Opcode, bufferBytes: nat, address: u32, size: nat)
    requires Opens(d, opcode, bufferBytes, address, size)
    ensures Opened(before, before + Carried(StreamBegin, d, reply, number), opcode, bufferBytes, address, size)
  {
    hide Opens;
  }

  /** One more command has been carried out, a read of so many bytes there, and these were
      its answer. */
  ghost predicate ReadOnce(before: seq<Command>, now: seq<Command>, opcode: Opcode, address: u32, bytes: seq<byte>) {
    && |now| == |before| + 1 && before <= now && now[|before|].opcode == opcode
    && Names(now[|before|].request, address, |bytes|) && now[|before|].answer == bytes
  }

  /** A stream moved exactly these bytes, in order and in one direction. */
  ghost predicate Streamed(opcode: Opcode, poured0: seq<byte>, poured: seq<byte>, drawn0: seq<byte>, drawn: seq<byte>, bytes: seq<byte>) {
    if opcode.Reading() then poured == poured0 && drawn == drawn0 + bytes else poured == poured0 + bytes && drawn == drawn0
  }

  /** Changing a stretch leaves both ends alone. */
  lemma SameEnds(a: seq<byte>, b: seq<byte>, from: nat, to: nat)
    requires from <= to <= |a| == |b| && forall i | 0 <= i < |a| && !(from <= i < to) :: a[i] == b[i]
    ensures a[..from] == b[..from] && a[to..] == b[to..]
  {}

  /** At some moment this was the MCU's answer, filled up with zeros where short. */
  ghost predicate Answered(fates: nat -> Fate, ask: Ask, payload: seq<byte>) {
    exists t :: payload == Fit(fates(t).answer(ask).payload, ask.room)
  }

  lemma EchoOut(opcode: Opcode)
    ensures opcode == Echo ==> !opcode.Reading()
  {}

  lemma StreamedNothing(opcode: Opcode, poured: seq<byte>, drawn: seq<byte>, none: seq<byte>)
    requires none == []
    ensures Streamed(opcode, poured, poured, drawn, drawn, none)
  {}

  lemma StreamedMore(opcode: Opcode, p0: seq<byte>, p: seq<byte>, p': seq<byte>, d0: seq<byte>, d: seq<byte>, d': seq<byte>,
      data: seq<byte>, offset: nat, chunk: nat)
    requires offset + chunk <= |data| && Streamed(opcode, p0, p, d0, d, data[..offset])
    requires Streamed(opcode, p, p', d, d', data[offset..offset + chunk])
    ensures Streamed(opcode, p0, p', d0, d', data[..offset + chunk])
  {
    hide Opcode.Reading;
    var a, b := data[..offset], data[offset..offset + chunk];
    assert data[..offset + chunk] == a + b;
    assert p0 + (a + b) == p0 + a + b && d0 + (a + b) == d0 + a + b;
  }

  lemma SameRest(a: seq<byte>, b: seq<byte>, at: nat, size: nat)
    requires |a| == |b| && at <= size <= |a| && a[at..] == b[at..]
    ensures a[size..] == b[size..]
  {
    assert a[size..] == a[at..][size - at..] && b[size..] == b[at..][size - at..];
  }

  datatype Block = Block(offset: nat, size: nat)

  /** Blocks of a stream: one after the other from zero to an end, none empty or too long. */
  ghost predicate Blocks(blocks: seq<Block>, end: nat) {
    if blocks == [] then end == 0
    else
      var last := blocks[|blocks| - 1];
      && 0 < last.size <= STREAM_CHUNK && last.offset + last.size == end
      && Blocks(blocks[..|blocks| - 1], last.offset)
  }

  lemma NoBlocks()
    ensures Blocks([], 0)
  {}

  lemma NextBlock(blocks: seq<Block>, end: nat, size: nat)
    requires Blocks(blocks, end) && 0 < size <= STREAM_CHUNK
    ensures Blocks(blocks + [Block(end, size)], end + size)
  {
    var all := blocks + [Block(end, size)];
    assert all[..|all| - 1] == blocks;
  }

  /** Exactly n bytes of an answer, zeros where it is short. */
  function Fit(s: seq<byte>, n: nat): (r: seq<byte>)
    ensures |r| == n && (|s| >= n ==> r == s[..n])
  {
    if |s| >= n then s[..n] else s + seq(n - |s|, i => 0)
  }

  lemma LeftByExit(before: seq<Key>, open: seq<Key>, after: seq<Key>)
    requires before <= open && after == open + [ExitKey]
    ensures Left(before, after)
  {}

  const WRITE_CHUNK: nat := MAX_PAYLOAD - 4

  lemma LeftSelf(a: seq<Key>)
    ensures Left(a, a)
  {}

  lemma LeftTrans(a: seq<Key>, b: seq<Key>, c: seq<Key>)
    requires Left(a, b) && Left(b, c)
    ensures Left(a, c)
  {}

  /** The commands since a moment carry the first bytes of the data. */
  ghost predicate WrittenTo(before: seq<Command>, now: seq<Command>, opcode: Opcode, address: u32, data: seq<byte>, written: nat) {
    before <= now && written <= |data| && Covers(now[|before|..], opcode, address, data[..written])
  }

  lemma NothingWritten(done: seq<Command>, opcode: Opcode, address: u32, data: seq<byte>)
    ensures WrittenTo(done, done, opcode, address, data, 0)
  {
    assert done[|done|..] == [];
  }

  lemma StartsThere(opcode: Opcode, address: u32)
    ensures Moved(opcode, address, 0) == address
  {}

  /** Advancing chunk by chunk arrives at the address of the position. */
  lemma AddressStep(opcode: Opcode, address: u32, written: nat, chunk: nat)
    requires written % WRITE_CHUNK == 0
    ensures (Moved(opcode, address, written) + Units(opcode, chunk)) % 0x1_0000_0000 == Moved(opcode, address, written + chunk)
  {
    hide Units;
    UnitsAdd(opcode, written, chunk);
    Wraps(address + Units(opcode, written), Units(opcode, chunk));
  }

  lemma UnitsAdd(opcode: Opcode, written: nat, chunk: nat)
    requires written % WRITE_CHUNK == 0
    ensures Units(opcode, written + chunk) == Units(opcode, written) + Units(opcode, chunk)
  {
    Halves(written, chunk);
  }

  lemma Halves(written: nat, chunk: nat)
    requires written % WRITE_CHUNK == 0
    ensures (written + chunk) / 2 == written / 2 + chunk / 2
  {
    var q := written / 8188;
    assert written == 8188 * q;
    assert (written + chunk) / 2 == 4094 * q + chunk / 2;
  }

  lemma NextMultiple(written: nat)
    requires written % WRITE_CHUNK == 0
    ensures (written + WRITE_CHUNK) % WRITE_CHUNK == 0
  {}

  lemma Wraps(a: nat, b: nat)
    ensures (a % 0x1_0000_0000 + b) % 0x1_0000_0000 == (a + b) % 0x1_0000_0000
  {
    var q := a / 0x1_0000_0000;
    assert a == q * 0x1_0000_0000 + a % 0x1_0000_0000;
  }

  /** Bytes in the device's own unit: words of the ROM count two bytes each. */
  function Units(opcode: Opcode, bytes: nat): nat {
    if opcode.Words() then bytes / 2 else bytes
  }

  /** The device address of a byte position. */
  function Moved(opcode: Opcode, address: u32, offset: nat): u32 {
    (address + Units(opcode, offset)) % 0x1_0000_0000
  }

  /** Commands that carry exactly these bytes in order, each at the address of its position;
      all but the last are full, and the MCU has counted all of each. */
  ghost predicate Covers(cs: seq<Command>, opcode: Opcode, address: u32, bytes: seq<byte>) {
    if cs == [] then bytes == []
    else
      var last := cs[|cs| - 1];
      var n := |last.request| - 4;
      && last.opcode == opcode && 0 < n == last.result <= WRITE_CHUNK && n <= |bytes| && (|bytes| - n) % WRITE_CHUNK == 0
      && Carries(last.request, Moved(opcode, address, |bytes| - n), bytes[|bytes| - n..])
      && Covers(cs[..|cs| - 1], opcode, address, bytes[..|bytes| - n])
  }

  /** Consecutive commands of such a series are consecutive on the device, in its own unit. */
  lemma {:induction false} CoversInOrder(cs: seq<Command>, opcode: Opcode, address: u32, bytes: seq<byte>, k: nat)
    requires Covers(cs, opcode, address, bytes) && k + 1 < |cs|
    ensures |cs[k].request| > 4 && |cs[k + 1].request| > 4
    ensures FromWord(WordAt(cs[k + 1].request, 0))
      == (FromWord(WordAt(cs[k].request, 0)) + Units(opcode, |cs[k].request| - 4)) % 0x1_0000_0000
    decreases |cs|
  {
    hide Units, Moved, FromWord;
    var n := |cs[|cs| - 1].request| - 4;
    var front := cs[..|cs| - 1];
    if k + 2 < |cs| {
      CoversInOrder(front, opcode, address, bytes[..|bytes| - n], k);
    } else {
      assert cs[k] == front[|front| - 1];
      var m := |cs[k].request| - 4;
      AddressStep(opcode, address, |bytes| - n - m, m);
    }
  }

  /** ROM commands count in 16-bit words, all others in bytes. */
  lemma UnitsMean(opcode: Opcode, bytes: nat)
    ensures opcode == RomRead || opcode == RomWrite ==> 2 * Units(opcode, bytes) <= bytes <= 2 * Units(opcode, bytes) + 1
    ensures opcode != RomRead && opcode != RomWrite ==> Units(opcode, bytes) == bytes
  {}

  lemma CoversMore(cs: seq<Command>, more: seq<Command>, opcode: Opcode, address: u32, data: seq<byte>, done: nat, n: nat, c: Command)
    requires done + n <= |data| && 0 < n <= WRITE_CHUNK && done % WRITE_CHUNK == 0 && Covers(cs, opcode, address, data[..done])
    requires more == cs + [c] && c.opcode == opcode && c.result == n && Carries(c.request, Moved(opcode, address, done), data[done..done + n])
    ensures Covers(more, opcode, address, data[..done + n])
  {
    hide FromWord, Moved;
    assert more[..|more| - 1] == cs;
    assert |c.request| - 4 == n;
    assert data[..done + n][..done] == data[..done];
    assert data[..done + n][done..] == data[done..done + n];
  }

  /** The trace a command leaves; pings are not counted. */
  function Carried(opcode: Opcode, request: seq<byte>, reply: Reply, sequence: u32): seq<Command> {
    if opcode == Ping then [] else [Command(opcode, request, reply.payload, reply.result, sequence)]
  }
}
