/** The firmware's side of a CPLD stream. */
module CpldTransport {
  import opened Bytes
  import opened Crc32
  import opened Errors
  import opened CpldPackets
  import opened CpldDevice

  datatype Availability = Unknown | Missing | Present

  datatype Preference = Other | Cpld | Auto

  /** What goes out to switch modes; one of them frees the bus of a stream left over. */
  datatype Key = ReleaseBus | EnterKey | ExitKey

  /** How one exchange on the bus fares, and what the hardware does before it. */
  datatype Fate = Fate(
    spi: Error,
    noise: seq<byte> -> seq<byte>,  // what arrives for what is sent
    ready: bool,                    // the next buffer is ready
    settled: nat,                   // bytes written out meanwhile
    fault: byte,                    // a fault of the hardware's own, or 0
    cancel: Error)                  // what the cancel poll says afterwards

  datatype Flag = Configured | Done | RxReady | TxReady

  predicate Shows(s: Status, flag: Flag) {
    match flag
    case Configured => s.configured
    case Done => s.done
    case RxReady => s.rxReady
    case TxReady => s.txReady
  }

  const SILENCE := Status(false, false, false, false, false, false, false, 0, 0)

  /** No exchange damages more than four consecutive bytes. */
  ghost predicate Gentle(fates: nat -> Fate) {
    forall t: nat, s: seq<byte> :: Mild(s, fates(t).noise(s))
  }

  /** Every exchange works and the hardware keeps up. */
  ghost predicate Quiet(fates: nat -> Fate) {
    forall t: nat :: QuietAt(fates, t)
  }

  ghost predicate QuietAt(fates: nat -> Fate, t: nat) {
    var f := fates(t);
    && f.spi == NoError && f.cancel == NoError && f.ready && f.fault == 0 && f.settled >= GBA_WINDOW
    && forall s: seq<byte> :: f.noise(s) == s
  }

  /** One packet: where its payload belongs, when it went over the bus, the engine at that
      moment, and payload and checksum as sent or received. */
  datatype Packet = Packet(offset: nat, tick: nat, engine: Hardware, wire: seq<byte>)

  class Transport {
    var available: Availability
    var packets: nat
    var polls: nat

    var hw: Hardware
    var fates: nat -> Fate
    var clock: nat
    var patience: nat -> nat       // further polls a wait affords before its deadline
    ghost var keys: seq<Key>       // mode keys sent
    ghost var log: seq<Packet>     // packets of the present stream, as they were on the wire

    /** One tick: time passes for the hardware. */
    method Tick() returns (f: Fate)
      requires hw.Ok()
      modifies this`hw, this`clock
      ensures clock == old(clock) + 1
      ensures f == fates(old(clock)) && hw == Elapsed(old(hw), f.settled, f.fault) && Aged(old(hw), hw)
      ensures Quiet(fates) ==> QuietAt(fates, old(clock))
      ensures Quiet(fates) && old(hw).error == 0 ==> hw.error == 0
    {
      hide Aged, QuietAt;
      f := fates(clock);
      clock := clock + 1;
      ElapsedAges(hw, f.settled, f.fault);
      hw := Elapsed(hw, f.settled, f.fault);
      if Quiet(fates) {
        QuietTick(fates, old(clock), old(hw));
      }
    }

    method ModeKey(key: Key) returns (err: Error)
      requires hw.Ok()
      modifies this`hw, this`clock, this`keys
      ensures clock == old(clock) + 1
      ensures hw.Ok() && hw.cart == old(hw).cart && hw.present == old(hw).present && keys == old(keys) + [key]
      ensures err == NoError && key == ExitKey ==> !hw.enabled && !hw.configured && hw.error == 0
      ensures err == NoError && key == EnterKey && old(!hw.enabled && !hw.configured && hw.error == 0) ==>
        hw.enabled == hw.present && !hw.configured && hw.error == 0
      ensures err != NoError ==> Aged(old(hw), hw)
      ensures err == fates(old(clock)).spi
      ensures Quiet(fates) ==> err == NoError
    {
      var f := Tick();
      keys := keys + [key];
      err := f.spi;
      if err == NoError {
        hw := if key == EnterKey then Entered(hw) else Exited(hw);
      }
    }

    method ReadStatus() returns (err: Error, s: Status)
      requires hw.Ok()
      modifies this`hw, this`clock, this`polls
      ensures Aged(old(hw), hw) && clock == old(clock) + 1
      ensures polls == old(polls) + 1
      ensures err == NoError ==> hw.present && hw.enabled && hw.error == 0 && (s == StatusOf(hw, true) || s == StatusOf(hw, false))
      ensures err == Timeout ==> fates(old(clock)).spi == Timeout || hw.error == 8
      ensures err == NotSupported ==> !(hw.present && hw.enabled) || fates(old(clock)).spi == NotSupported
      ensures Quiet(fates) && !old(hw.present && hw.enabled) ==> err == NotSupported
      ensures Quiet(fates) && old(hw.present && hw.enabled && hw.error == 0) ==>
        err == NoError && s == StatusOf(hw, true) && (!hw.configured || hw.request.op.Reading() || hw.completed == hw.taken)
    {
      hide Aged;
      polls := polls + 1;
      s := SILENCE;
      var f := Tick();
      Ages(old(hw), hw);
      if f.spi != NoError {
        return f.spi, s;
      }
      if hw.present && hw.enabled {
        s := StatusOf(hw, f.ready);
      }
      err := NoError;
      if !s.known || !s.mode {
        err := NotSupported;
      } else if s.failed {
        err := if s.code == 8 then Timeout else InvalidResponse;
      }
    }

    /** The short transfer that releases a stream left over from before a restart. */
    method Release() returns (err: Error)
      requires hw.Ok()
      modifies this`hw, this`clock, this`keys
      ensures Aged(old(hw), hw) && clock == old(clock) + 1
      ensures keys == old(keys) + [ReleaseBus]
      ensures err == fates(old(clock)).spi
      ensures Quiet(fates) ==> err == NoError
    {
      var f := Tick();
      keys := keys + [ReleaseBus];
      err := f.spi;
    }

    method Enter() returns (err: Error)
      requires hw.Ok()
      modifies this`hw, this`clock, this`polls, this`keys
      ensures clock > old(clock)
      ensures hw.Ok() && hw.cart == old(hw).cart && hw.present == old(hw).present
      ensures old(keys) + [ExitKey] <= keys <= old(keys) + [ExitKey, ReleaseBus, EnterKey]
      ensures err == NoError ==> keys == old(keys) + [ExitKey, ReleaseBus, EnterKey]
      ensures err == NoError ==> hw.present && hw.enabled && !hw.configured && hw.error == 0
      ensures err == NotSupported ==> NoAnswer(fates, hw, old(clock), clock)
      ensures Quiet(fates) ==> err == (if hw.present then NoError else NotSupported)
    {
      err := ModeKey(ExitKey);
      if err != NoError { return; }
      ghost var h := hw;
      err := Release();
      Ages(h, hw);
      IdleAges(h, hw);
      if err != NoError { return; }
      err := ModeKey(EnterKey);
      if err != NoError {
        IdleAges(h, hw);
        return;
      }
      h := hw;
      var status;
      err, status := ReadStatus();
      IdleAges(h, hw);
    }

    /** Finds out whether the CPLD is there; the answer is remembered only when it is clear. */
    method Probe() returns (err: Error)
      requires hw.Ok()
      modifies this`hw, this`clock, this`polls, this`keys, this`available
      ensures hw.Ok() && hw.cart == old(hw).cart && hw.present == old(hw).present
      ensures |keys| > |old(keys)| && keys[|keys| - 1] == ExitKey
      ensures err == NoError ==> available == Present && hw.present && !hw.enabled
      ensures available == old(available) || (available == Present && hw.present) || available == Missing
      ensures available == Missing != old(available) ==> NoAnswer(fates, hw, old(clock), clock)
      ensures Quiet(fates) ==> available == (if hw.present then Present else Missing)
    {
      err := Enter();
      if err == NoError {
        available := Present;
      } else if err == NotSupported {
        available := Missing;
      }
      var exit := ModeKey(ExitKey);
      if err == NoError {
        err := exit;
      }
    }

    /** Polls the status until a flag shows, at least once. */
    method WaitFlag(flag: Flag, total: nat) returns (err: Error)
      requires hw.Ok()
      modifies this`hw, this`clock, this`polls
      ensures Aged(old(hw), hw) && clock > old(clock)
      ensures polls - old(polls) == clock - old(clock) <= patience(old(clock)) + 1
      ensures err == NoError ==> forall t | old(clock) < t < clock :: fates(t).cancel == NoError
      ensures err == Timeout ==>
        || clock == old(clock) + patience(old(clock)) + 1
        || fates(clock - 1).spi == Timeout || fates(clock).cancel == Timeout || hw.error == 8
      ensures err == NoError ==> hw.Running() || (hw.enabled && hw.error == 0 && !hw.configured)
      ensures err == NoError ==> hw.present && Shows(StatusOf(hw, true), flag) && hw.completed <= total
      ensures err == NoError && flag == Done ==> hw.completed == total
      ensures Quiet(fates) && old(hw.present && hw.enabled && hw.error == 0) && WillShow(old(hw), flag, total) ==> err == NoError
    {
      hide Quiet, QuietAt;
      var left := patience(clock);
      AgedSelf(hw);
      while true
        invariant Aged(old(hw), hw) && clock >= old(clock)
        invariant polls - old(polls) == clock - old(clock) && clock + left == old(clock) + patience(old(clock))
        invariant forall t | old(clock) < t <= clock :: fates(t).cancel == NoError
        invariant Quiet(fates) && old(hw.present && hw.enabled && hw.error == 0) && WillShow(old(hw), flag, total) ==> hw == old(hw)
        decreases left
      {
        ghost var h := hw;
        var status;
        err, status := ReadStatus();
        AgedTrans(old(hw), h, hw);
        Ages(h, hw);
        ShowsMore(hw, flag);
        if err != NoError { return; }
        if status.completed > total {
          return InvalidResponse;
        }
        if Shows(status, flag) {
          if flag == Done && status.completed != total {
            return InvalidSize;
          }
          return NoError;
        }
        err := fates(clock).cancel;
        if err != NoError { return; }
        if left == 0 {
          return Timeout;
        }
        left := left - 1;
      }
    }

    /** Bytes to the hardware; what arrives may differ, or nothing may. */
    method Send(bytes: seq<byte>) returns (err: Error, ghost h: Hardware, ghost arrived: seq<byte>)
      requires hw.Ok()
      modifies this`hw, this`clock
      ensures Aged(old(hw), h) && hw == Take(h, arrived) && clock == old(clock) + 1
      ensures Gentle(fates) ==> Mild(bytes, arrived)
      ensures Quiet(fates) ==> err == NoError && arrived == bytes && (old(hw).error == 0 ==> h.error == 0)
    {
      hide Aged, Take, Mild;
      var f := Tick();
      Ages(old(hw), hw);
      h := hw;
      arrived := f.noise(bytes);
      hw := Take(hw, f.noise(bytes));
      err := f.spi;
      if Gentle(fates) {
        GentleAt(fates, old(clock), bytes);
      }
    }

    /** The descriptor, and the hardware's word that it has it. */
    method Configure(r: Request) returns (err: Error)
      requires hw.Ok() && Valid(r) && hw.enabled && !hw.configured && hw.error == 0
      modifies this`hw, this`clock, this`polls
      ensures hw.Ok() && hw.cart == old(hw).cart && hw.present == old(hw).present && clock > old(clock)
      ensures err == NoError ==> hw.Running() && hw.present
      ensures err == NoError && Gentle(fates) ==> Begun(hw, r)
      ensures Quiet(fates) && hw.present ==> err == NoError && Begun(hw, r)
    {
      hide Quiet, QuietAt, Gentle, Mild, Descriptor, Sealed, Understood, Aged, Valid;
      DescriptorRoundTrip(r);
      ghost var h, arrived;
      err, h, arrived := Send(Descriptor(r));
      IdleAges(old(hw), h);
      DescriptorArrives(h, r, arrived);
      ghost var g := hw;
      AgedSelf(g);
      if err == NoError {
        err := WaitFlag(Configured, r.size);
      }
      Ages(g, hw);
      BegunAges(g, hw, r);
    }

    /** One packet to the hardware. */
    method WritePacket(r: Request, data: array<byte>, done: nat) returns (err: Error, count: nat)
      requires hw.Ok() && Valid(r) && !r.op.Reading() && done < r.size <= data.Length
      modifies this`hw, this`clock, this`log
      ensures hw.Ok() && hw.cart == old(hw).cart && hw.present == old(hw).present && count == Count(r, done)
      ensures clock == old(clock) + 1
      ensures exists h ::
        && Aged(old(hw), h)
        && log == old(log) + if err == NoError then [Packet(done, old(clock), h, Wire(data[done..done + count]))] else []
      ensures Gentle(fates) && old(Linked(hw, r, done, data[..])) ==> Linked(hw, r, done + count, data[..])
      ensures Quiet(fates) && old(Linked(hw, r, done, data[..]) && hw.error == 0) ==>
        err == NoError && hw.error == 0 && Linked(hw, r, done + count, data[..])
    {
      hide Quiet, QuietAt, Gentle, Mild, Wire, Sealed, Aged, Valid, Count, Linked;
      count := Count(r, done);
      ghost var h, arrived;
      err, h, arrived := Send(Wire(data[done..done + count]));
      IdleAges(old(hw), h);
      PacketTaken(old(hw), h, r, done, data[..], arrived);
      log := log + if err == NoError then [Packet(done, old(clock), h, Wire(data[done..done + count]))] else [];
    }

    /** Reads one packet off the bus and checks it. */
    method Receive(r: Request, done: nat, ghost data: seq<byte>) returns (err: Error, wire: seq<byte>, count: nat, ghost h: Hardware)
      requires hw.Ok() && Valid(r) && r.op.Reading() && done < r.size <= |data|
      modifies this`hw, this`clock
      ensures hw.Ok() && hw.cart == old(hw).cart && hw.present == old(hw).present && count == Count(r, done) && Aged(old(hw), h) && h.Ok()
      ensures clock == old(clock) + 1
      ensures err == NoError ==>
        && fates(old(clock)).spi == NoError
        && wire == Fit(fates(old(clock)).noise(Give(h, Padded(count) + 8).0), Padded(count) + 8)
        && hw == Give(h, Padded(count) + 8).1 && Accepts(wire[LEAD..], count)
      ensures Quiet(fates) && old(Linked(hw, r, done, data) && hw.error == 0) ==> err == NoError && hw.error == 0
    {
      hide Quiet, Gentle, Mild, Wire, Sealed, Aged, Valid, Count, Linked, Accepts, Waiting;
      count := Count(r, done);
      var f := Tick();
      h := hw;
      IdleAges(old(hw), h);
      var n := Padded(count) + 8;
      assert n <= BLOCK_BYTES + 8;
      var (answer, after) := Give(hw, n);
      wire := [];
      if f.spi != NoError {
        return f.spi, wire, count, h;
      }
      hw := after;
      wire := Fit(f.noise(answer), n);
      PacketClean(old(hw), h, r, done, data, fates, old(clock));
      err := if Accepts(wire[LEAD..], count) then NoError else InvalidCrc;
    }

    /** One packet from the hardware, checked before it is copied out. */
    method ReadPacket(r: Request, data: array<byte>, done: nat) returns (err: Error, count: nat)
      requires hw.Ok() && Valid(r) && r.op.Reading() && done < r.size <= data.Length
      modifies this`hw, this`clock, this`log, data
      ensures hw.Ok() && hw.cart == old(hw).cart && hw.present == old(hw).present && count == Count(r, done)
      ensures clock == old(clock) + 1 && (err != NoError ==> log == old(log))
      ensures err == NoError ==> exists p ::
        log == old(log) + [p] && p.tick == old(clock) && Brings(fates, old(hw), p, hw, done, data[done..done + count])
      ensures data[..done] == old(data[..done]) && data[done + count..] == old(data[done + count..])
      ensures err != NoError ==> data[..] == old(data[..])
      ensures err == NoError && Gentle(fates) && old(Linked(hw, r, done, data[..])) ==> Linked(hw, r, done + count, data[..])
      ensures Quiet(fates) && old(Linked(hw, r, done, data[..]) && hw.error == 0) ==>
        err == NoError && hw.error == 0 && Linked(hw, r, done + count, data[..])
    {
      hide Quiet, Gentle, Mild, Wire, Sealed, Aged, Valid, Count, Linked, Accepts, Received, Exchanged, Carries, Brings, Give, Hardware.Ok, Fit;
      if Quiet(fates) {
        QuietIsGentle(fates);
      }
      var wire;
      ghost var was, h := data[..], hw;
      err, wire, count, h := Receive(r, done, data[..]);
      if err != NoError {
        return;
      }
      forall i | 0 <= i < count {
        data[done + i] := wire[LEAD + i];
      }
      assert data[done..done + count] == wire[LEAD..LEAD + count];
      SameEnds(was, data[..], done, done + count);
      ghost var p := Packet(done, old(clock), h, wire[LEAD..]);
      ReceivedWire(fates, old(hw), p, wire, Padded(count) + 8, hw);
      FrontCarried(wire, count, data[done..done + count]);
      BroughtBy(fates, old(hw), p, hw, data[done..done + count]);
      log := log + [p];
      PacketGiven(old(hw), h, r, done, old(data[..]), data[..], fates, old(clock));
    }

    /** One packet in the direction of the stream; it carries its bytes and passes its check. */
    method MovePacket(r: Request, data: array<byte>, done: nat) returns (err: Error, count: nat)
      requires hw.Ok() && Valid(r) && done < r.size <= data.Length && PacketsCarry(log, r, data[..done])
      modifies this`hw, this`clock, this`log, data
      ensures hw.Ok() && hw.cart == old(hw).cart && hw.present == old(hw).present && count == Count(r, done)
      ensures data[r.size..] == old(data[r.size..]) && (!r.op.Reading() || err != NoError ==> data[..] == old(data[..]))
      ensures clock == old(clock) + 1
      ensures err == NoError ==>
        && PacketsCarry(log, r, data[..done + count])
        && |log| == |old(log)| + 1 && log == old(log) + [log[|old(log)|]] && log[|old(log)|].tick == old(clock)
      ensures err == NoError && r.op.Reading() ==> exists p ::
        log == old(log) + [p] && p.tick == old(clock) && Exchanged(fates, old(hw), p, hw)
      ensures err != NoError ==> log == old(log)
      ensures err == NoError && Gentle(fates) && old(Linked(hw, r, done, data[..])) ==> Linked(hw, r, done + count, data[..])
      ensures Quiet(fates) && old(Linked(hw, r, done, data[..]) && hw.error == 0) ==>
        err == NoError && hw.error == 0 && Linked(hw, r, done + count, data[..])
    {
      hide Quiet, QuietAt, Gentle, Valid, Count, Linked, PacketsCarry, Accepts, Wire, Exchanged, Carries, Aged;
      ghost var was, before := data[..], log;
      if r.op.Reading() {
        err, count := ReadPacket(r, data, done);
        SameTail(was, data[..], done + count, r.size);
      } else {
        err, count := WritePacket(r, data, done);
        SentCarries(data[done..done + count]);
      }
      if err == NoError {
        SameFront(was, data[..], done);
        CarriesMore(before, r, data[..], count, log[|before|]);
      }
    }

    /** One round: readiness, packet, cancel poll. */
    method NextPacket(r: Request, data: array<byte>, done: nat, ghost h0: Hardware, ghost t0: nat)
      returns (err: Error, count: nat, ghost last: Hardware, ghost seen: nat)
      requires hw.Ok() && Valid(r) && done < r.size <= data.Length && Uncancelled(fates, log)
      requires PacketsCarry(log, r, data[..done]) && (r.op.Reading() ==> Received(fates, h0, t0, log, hw, clock))
      modifies this`hw, this`clock, this`polls, this`packets, this`log, data
      ensures hw.Ok() && hw.cart == old(hw).cart && hw.present == old(hw).present && clock >= old(clock)
      ensures 0 < count && done + count <= r.size
      ensures data[r.size..] == old(data[r.size..]) && (!r.op.Reading() ==> data[..] == old(data[..]))
      ensures packets - old(packets) == |log| - |old(log)|
      ensures err == NoError ==> PacketsCarry(log, r, data[..done + count]) && Uncancelled(fates, log) && last == hw
      ensures r.op.Reading() ==> seen <= clock && Received(fates, h0, t0, log, last, seen)
      ensures err == NoError && Gentle(fates) && old(Linked(hw, r, done, data[..])) ==> Linked(hw, r, done + count, data[..])
      ensures Quiet(fates) && old(hw.present && hw.error == 0 && Linked(hw, r, done, data[..])) ==>
        err == NoError && hw.error == 0 && Linked(hw, r, done + count, data[..])
    {
      hide Quiet, QuietAt, Gentle, Aged, Valid, Count, Linked, StatusOf, Shows, WillShow, PacketsCarry, Accepts, Wire, Received, Exchanged,
        Uncancelled;
      if Quiet(fates) {
        QuietIsGentle(fates);
      }
      count := Count(r, done);
      last, seen := hw, clock;
      ghost var h, before := hw, log;
      LinkedShows(h, r, done, data[..]);
      err := WaitFlag(if r.op.Reading() then TxReady else RxReady, r.size);
      LinkedAges(h, hw, r, done, data[..]);
      ReceivedAges(fates, h0, t0, log, h, hw, seen, clock);
      last, seen := hw, clock;
      if err != NoError { return; }
      ghost var g := hw;
      err, count := MovePacket(r, data, done);
      if err != NoError { return; }
      if r.op.Reading() {
        MoreReceived(fates, h0, t0, before, g, log[|before|], hw);
      }
      last, seen := hw, clock;
      packets := packets + 1;
      NoCancel(fates, clock);
      err := fates(clock).cancel;
      if err == NoError {
        StillUncancelled(fates, before, log[|before|]);
      }
    }

    /** The packet loop, until the stream is through. */
    method MovePackets(r: Request, data: array<byte>) returns (err: Error)
      requires hw.Ok() && Valid(r) && r.size <= data.Length && log == []
      modifies this`hw, this`clock, this`polls, this`packets, this`log, data
      ensures err == NoError ==> PacketsCarry(log, r, data[..r.size])
      ensures packets == old(packets) + |log|
      ensures clock >= old(clock) && (err == NoError ==> Uncancelled(fates, log))
      ensures r.op.Reading() ==> exists h: Hardware, t: nat ::
        t <= clock && Received(fates, old(hw), old(clock), log, h, t) && (err == NoError ==> h == hw)
      ensures hw.Ok() && hw.cart == old(hw).cart && hw.present == old(hw).present
      ensures data[r.size..] == old(data[r.size..]) && (!r.op.Reading() ==> data[..] == old(data[..]))
      ensures err == NoError && Gentle(fates) && old(Linked(hw, r, 0, data[..])) ==> Linked(hw, r, r.size, data[..])
      ensures Quiet(fates) && old(hw.present && hw.error == 0 && Linked(hw, r, 0, data[..])) ==>
        err == NoError && hw.error == 0 && Linked(hw, r, r.size, data[..])
    {
      hide Quiet, QuietAt, Gentle, Aged, Valid, Count, Linked, PacketsCarry, Received, Uncancelled;
      ghost var h0, t0: nat, last, seen: nat := hw, clock, hw, clock;
      NothingReceived(fates, hw, clock);
      NothingCancelled(fates);
      NothingCarried(r, data[..0]);
      if Quiet(fates) {
        QuietIsGentle(fates);
      }
      var transferred := 0;
      err := NoError;
      while err == NoError && transferred < r.size
        invariant 0 <= transferred <= r.size && packets == old(packets) + |log| && clock >= t0
        invariant hw.Ok() && hw.cart == old(hw).cart && hw.present == old(hw).present
        invariant data[r.size..] == old(data[r.size..]) && (!r.op.Reading() ==> data[..] == old(data[..]))
        invariant err == NoError ==> PacketsCarry(log, r, data[..transferred]) && Uncancelled(fates, log) && last == hw
        invariant r.op.Reading() ==> seen <= clock && Received(fates, h0, t0, log, last, seen)
        invariant err == NoError && Gentle(fates) && old(Linked(hw, r, 0, data[..])) ==> Linked(hw, r, transferred, data[..])
        invariant Quiet(fates) && old(hw.present && hw.error == 0 && Linked(hw, r, 0, data[..])) ==>
          err == NoError && hw.error == 0 && Linked(hw, r, transferred, data[..])
        decreases r.size - transferred, err == NoError
      {
        AgedSelf(hw);
        if r.op.Reading() {
          ReceivedAges(fates, h0, t0, log, hw, hw, seen, clock);
        }
        var count;
        err, count, last, seen := NextPacket(r, data, transferred, h0, t0);
        if err == NoError {
          transferred := transferred + count;
        }
      }
    }

    /** The stream proper, from the descriptor to the final count. */
    method RunStream(r: Request, data: array<byte>) returns (err: Error)
      requires hw.Ok() && Valid(r) && r.size <= data.Length
      requires hw.present && hw.enabled && !hw.configured && hw.error == 0 && log == []
      modifies this`hw, this`clock, this`polls, this`packets, this`log, data
      ensures err == NoError ==> PacketsCarry(log, r, data[..r.size]) && packets == old(packets) + |log|
      ensures err == NoError ==> Uncancelled(fates, log)
      ensures clock > old(clock) && (err == NoError && r.op.Reading() ==> CameFrom(fates, hw.cart, old(clock), log, hw, clock))
      ensures hw.Ok() && hw.cart == old(hw).cart && hw.present == old(hw).present
      ensures data[r.size..] == old(data[r.size..]) && (!r.op.Reading() ==> data[..] == old(data[..]))
      ensures err == NoError ==> hw.configured && hw.error == 0 && hw.completed == r.size
      ensures err == NoError && Gentle(fates) ==> hw.request == Effective(r) && Moved(hw, r, data[..])
      ensures Quiet(fates) ==> err == NoError
    {
      hide Quiet, QuietAt, Gentle, Aged, Valid, Linked, WillShow, Moved, PacketsCarry, Received, Uncancelled;
      if Quiet(fates) {
        QuietIsGentle(fates);
      }
      err := Configure(r);
      BegunLinks(hw, r, data[..]);
      ghost var h0, t0 := hw, clock;
      if err == NoError {
        err := MovePackets(r, data);
      }
      if err == NoError {
        ghost var h, t := hw, clock;
        LinkedShows(h, r, r.size, data[..]);
        err := WaitFlag(Done, r.size);
        LinkedAges(h, hw, r, r.size, data[..]);
        LinkedDelivers(hw, r, data[..]);
        if r.op.Reading() {
          ghost var seen: nat :| seen <= t && Received(fates, h0, t0, log, h, seen);
          ReceivedLater(fates, h0, t0, log, h, seen, hw, clock);
        }
      }
    }

    /** Moves a stream through the CPLD if it is to be used and there; otherwise leaves it
        to another path, with the data untouched. */
    method TryTransfer(preference: Preference, r: Request, data: array<byte>)
      returns (err: Error, used: bool, ghost final: Hardware)
      requires hw.Ok() && r.size <= data.Length
      modifies this`hw, this`clock, this`polls, this`packets, this`keys, this`available, this`log, data
      ensures hw.Ok() && final.cart == hw.cart == old(hw).cart && hw.present == old(hw).present
      ensures !used ==> err == NoError && data[..] == old(data[..])
      ensures !used <==> preference == Other || (preference == Auto && available == Missing)
      ensures !Valid(r) && used ==> err == InvalidArg && data[..] == old(data[..])
      ensures data[r.size..] == old(data[r.size..]) && (!r.op.Reading() ==> data[..] == old(data[..]))
      ensures err == NoError && used ==> Valid(r) && final.configured && final.error == 0 && final.completed == r.size
      ensures err == NoError && used ==> PacketsCarry(log, r, data[..r.size]) && packets == |log|
      ensures err == NoError && used ==> Uncancelled(fates, log)
      ensures err == NoError && used && r.op.Reading() ==> CameFrom(fates, final.cart, old(clock), log, final, clock)
      ensures err == NoError && used && Gentle(fates) ==> final.request == Effective(r) && Moved(final, r, data[..])
      ensures keys == old(keys) || (|keys| > |old(keys)| && keys[|keys| - 1] == ExitKey)
      ensures err == NoError && keys != old(keys) ==> !used || !hw.enabled
      ensures preference == Auto && old(available) == Missing ==> !used && hw == old(hw) && keys == old(keys)
      ensures available == Missing != old(available) ==> preference == Auto && NoAnswer(fates, hw, old(clock), clock)
      ensures Quiet(fates) && Valid(r) && preference == Auto && old(available) != Missing ==>
        && err == NoError && (used <==> hw.present) && available == (if hw.present then Present else Missing)
        && (used ==> Moved(final, r, data[..]))
      ensures Quiet(fates) && Valid(r) && preference == Cpld && !hw.present ==> used && err == NotSupported
      ensures Quiet(fates) && Valid(r) && preference == Cpld && hw.present ==> err == NoError && available == Present
    {
      hide Quiet, QuietAt, Gentle, Aged, Moved, StatusOf, PacketsCarry, CameFrom, Received, Exchanged, Count, Valid, Hardware.Ok, Hardware.Running, Effective, Uncancelled;
      used := false;
      final := hw;
      if Quiet(fates) {
        QuietIsGentle(fates);
      }
      if preference == Other {
        return NoError, used, final;
      }
      if available == Missing && preference == Auto {
        return NoError, used, final;
      }
      used := true;
      if !Valid(r) {
        return InvalidArg, used, final;
      }
      packets, polls, log := 0, 0, [];
      err := Enter();
      if err != NoError {
        var _ := ModeKey(ExitKey);
        if err == NotSupported && preference == Auto {
          available, used := Missing, false;
          err := NoError;
        }
        return;
      }
      available := Present;
      ghost var from := clock;
      err := RunStream(r, data);
      final := hw;
      CameLater(fates, final.cart, old(clock), from, log, final, clock);
      var exit := ModeKey(ExitKey);
      if err == NoError {
        err := exit;
      }
    }
  }

  /** Nobody answered as the CPLD does: it is not there, or the bus itself reported that. */
  ghost predicate NoAnswer(fates: nat -> Fate, h: Hardware, from: nat, to: nat) {
    !h.present || exists t: nat :: from <= t < to && fates(t).spi == NotSupported
  }

  /** No cancel was asked for behind any of these packets. */
  ghost predicate Uncancelled(fates: nat -> Fate, ps: seq<Packet>) {
    forall i | 0 <= i < |ps| :: fates(ps[i].tick + 1).cancel == NoError
  }

  lemma NothingCancelled(fates: nat -> Fate)
    ensures Uncancelled(fates, [])
  {}

  lemma StillUncancelled(fates: nat -> Fate, ps: seq<Packet>, p: Packet)
    requires Uncancelled(fates, ps) && fates(p.tick + 1).cancel == NoError
    ensures Uncancelled(fates, ps + [p])
  {}

  /** A packet passes its check and has this payload. */
  predicate Carries(wire: seq<byte>, payload: seq<byte>) {
    Accepts(wire, |payload|) && |payload| <= |wire| && wire[..|payload|] == payload
  }

  lemma FrontCarried(wire: seq<byte>, n: nat, payload: seq<byte>)
    requires LEAD + n <= |wire| && payload == wire[LEAD..LEAD + n] && Accepts(wire[LEAD..], n)
    ensures Carries(wire[LEAD..], payload)
  {
    hide Accepts;
    assert wire[LEAD..][..n] == wire[LEAD..LEAD + n];
  }

  /** This packet is the answer that the engine, after h, gave at its tick, as the bus
      carried it and behind its lead; it leaves the engine at g. */
  ghost predicate Exchanged(fates: nat -> Fate, h: Hardware, p: Packet, g: Hardware) {
    var n := |p.wire| + LEAD;
    && Aged(h, p.engine) && fates(p.tick).spi == NoError && g == Give(p.engine, n).1
    && p.wire == Fit(fates(p.tick).noise(Give(p.engine, n).0), n)[LEAD..]
  }

  /** And it belongs at this place and carries this payload. */
  ghost predicate Brings(fates: nat -> Fate, h: Hardware, p: Packet, g: Hardware, offset: nat, payload: seq<byte>) {
    p.offset == offset && Exchanged(fates, h, p, g) && Carries(p.wire, payload)
  }

  lemma BroughtBy(fates: nat -> Fate, h: Hardware, p: Packet, g: Hardware, payload: seq<byte>)
    requires Exchanged(fates, h, p, g) && Carries(p.wire, payload)
    ensures Brings(fates, h, p, g, p.offset, payload)
  {}

  lemma ReceivedWire(fates: nat -> Fate, h: Hardware, p: Packet, wire: seq<byte>, n: nat, g: Hardware)
    requires n >= LEAD && Aged(h, p.engine) && fates(p.tick).spi == NoError
    requires wire == Fit(fates(p.tick).noise(Give(p.engine, n).0), n) && g == Give(p.engine, n).1 && p.wire == wire[LEAD..]
    ensures Exchanged(fates, h, p, g)
  {}

  /** These packets are the engine's answers in exchanges one after another, the first not before
      tick t0 and the last before t, that with nothing but time between took it from h0 to h. */
  ghost predicate Received(fates: nat -> Fate, h0: Hardware, t0: nat, ps: seq<Packet>, h: Hardware, t: nat) {
    if ps == [] then Aged(h0, h) && t0 <= t
    else
      var last := ps[|ps| - 1];
      last.tick < t && exists g, g' ::
        Received(fates, h0, t0, ps[..|ps| - 1], g, last.tick) && Exchanged(fates, g, last, g') && Aged(g', h)
  }

  lemma NothingReceived(fates: nat -> Fate, h: Hardware, t: nat)
    requires h.Ok()
    ensures Received(fates, h, t, [], h, t)
  {
    AgedSelf(h);
  }

  lemma ReceivedLater(fates: nat -> Fate, h0: Hardware, t0: nat, ps: seq<Packet>, h: Hardware, t: nat, h': Hardware, t': nat)
    requires Aged(h, h') && t <= t' && Received(fates, h0, t0, ps, h, t)
    ensures Received(fates, h0, t0, ps, h', t')
  {
    hide Exchanged, Aged;
    if ps == [] {
      AgedTrans(h0, h, h');
    } else {
      var last := ps[|ps| - 1];
      var g, g' :| Received(fates, h0, t0, ps[..|ps| - 1], g, last.tick) && Exchanged(fates, g, last, g') && Aged(g', h);
      AgedTrans(g', h, h');
    }
  }

  lemma ReceivedAges(fates: nat -> Fate, h0: Hardware, t0: nat, ps: seq<Packet>, h: Hardware, h': Hardware, t: nat, t': nat)
    requires Aged(h, h') && t <= t'
    ensures Received(fates, h0, t0, ps, h, t) ==> Received(fates, h0, t0, ps, h', t')
  {
    hide Aged, Received;
    if Received(fates, h0, t0, ps, h, t) {
      ReceivedLater(fates, h0, t0, ps, h, t, h', t');
    }
  }

  lemma MoreReceived(fates: nat -> Fate, h0: Hardware, t0: nat, ps: seq<Packet>, g: Hardware, p: Packet, g': Hardware)
    requires Received(fates, h0, t0, ps, g, p.tick) && Exchanged(fates, g, p, g') && g'.Ok()
    ensures Received(fates, h0, t0, ps + [p], g', p.tick + 1)
  {
    hide Exchanged, Aged;
    AgedSelf(g');
    assert (ps + [p])[..|ps|] == ps;
  }

  /** The packets are answers of an engine over this cartridge, exchanged since tick `from`. */
  ghost predicate CameFrom(fates: nat -> Fate, cart: nat -> byte, from: nat, ps: seq<Packet>, h: Hardware, t: nat) {
    exists h0: Hardware, t0: nat :: h0.cart == cart && from <= t0 && Received(fates, h0, t0, ps, h, t)
  }

  lemma CameLater(fates: nat -> Fate, cart: nat -> byte, early: nat, from: nat, ps: seq<Packet>, h: Hardware, t: nat)
    requires early <= from && h.Ok()
    ensures CameFrom(fates, cart, from, ps, h, t) ==> CameFrom(fates, cart, early, ps, h, t + 1)
  {
    hide Received, Aged;
    AgedSelf(h);
    if h0: Hardware, t0: nat :| h0.cart == cart && from <= t0 && Received(fates, h0, t0, ps, h, t) {
      ReceivedLater(fates, h0, t0, ps, h, t, h, t + 1);
    }
  }

  /** The packets of a stream, in order and each of the size due at its place, carry exactly
      these bytes and all pass their checks. */
  ghost predicate PacketsCarry(ps: seq<Packet>, r: Request, bytes: seq<byte>) {
    if ps == [] then bytes == []
    else
      var last := ps[|ps| - 1];
      && Valid(r) && last.offset < r.size && |bytes| == last.offset + Count(r, last.offset)
      && Carries(last.wire, bytes[last.offset..]) && PacketsCarry(ps[..|ps| - 1], r, bytes[..last.offset])
  }

  lemma NothingCarried(r: Request, bytes: seq<byte>)
    requires bytes == []
    ensures PacketsCarry([], r, bytes)
  {}

  lemma CarriesMore(ps: seq<Packet>, r: Request, data: seq<byte>, count: nat, p: Packet)
    requires var done := p.offset;
      && Valid(r) && done < r.size <= |data| && count == Count(r, done) && PacketsCarry(ps, r, data[..done])
      && Carries(p.wire, data[done..done + count])
    ensures PacketsCarry(ps + [p], r, data[..p.offset + count])
  {
    hide Valid, Count, Carries;
    var done := p.offset;
    var all := ps + [p];
    assert all[..|all| - 1] == ps;
    assert data[..done + count][done..] == data[done..done + count];
    assert data[..done + count][..done] == data[..done];
  }

  lemma SentCarries(payload: seq<byte>)
    ensures Carries(Wire(payload), payload)
  {
    hide Accepts, Wire;
    SentIsAccepted(payload);
  }

  /** Changing a stretch leaves both ends alone. */
  lemma SameEnds(a: seq<byte>, b: seq<byte>, from: nat, to: nat)
    requires from <= to <= |a| == |b| && forall i | 0 <= i < |a| && !(from <= i < to) :: a[i] == b[i]
    ensures a[..from] == b[..from] && a[to..] == b[to..]
  {}

  lemma SameTail(a: seq<byte>, b: seq<byte>, at: nat, size: nat)
    requires |a| == |b| && at <= size <= |a|
    ensures a[at..] == b[at..] ==> a[size..] == b[size..]
  {
    assert a[size..] == a[at..][size - at..] && b[size..] == b[at..][size - at..];
  }

  lemma SameFront(a: seq<byte>, b: seq<byte>, at: nat)
    requires at <= |a| == |b|
    ensures a == b ==> a[..at] == b[..at]
  {}

  lemma QuietTick(fates: nat -> Fate, t: nat, h: Hardware)
    requires Quiet(fates)
    ensures QuietAt(fates, t) && (h.error == 0 ==> Elapsed(h, fates(t).settled, fates(t).fault).error == 0)
  {}

  lemma Ages(h: Hardware, g: Hardware)
    requires Aged(h, g)
    ensures g.present == h.present && g.enabled == h.enabled && g.Ok()
    ensures g.configured == h.configured && g.request == h.request
    ensures g.taken == h.taken
  {}

  lemma AgedSelf(h: Hardware)
    requires h.Ok()
    ensures Aged(h, h)
  {}

  /** Nothing happens to a machine that is not running a stream. */
  lemma IdleAges(h: Hardware, g: Hardware)
    requires Aged(h, g)
    ensures g.cart == h.cart && g.present == h.present && g.Ok()
    ensures g.enabled == h.enabled && g.configured == h.configured && (!h.Running() ==> g == h)
  {}

  /** The flag will show at the first look, once everything accepted has been written out. */
  predicate WillShow(h: Hardware, flag: Flag, total: nat) {
    && h.configured && h.request.size == total && h.Running()
    && match flag
       case Configured => true
       case Done => (if h.request.op.Reading() then h.completed else h.taken) == total
       case RxReady => !h.request.op.Reading() && h.taken < total
       case TxReady => h.request.op.Reading() && h.completed < total
  }

  lemma ShowsMore(h: Hardware, flag: Flag)
    ensures Shows(StatusOf(h, false), flag) ==> Shows(StatusOf(h, true), flag)
  {}

  lemma GentleAt(fates: nat -> Fate, t: nat, s: seq<byte>)
    requires Gentle(fates)
    ensures Mild(s, fates(t).noise(s))
  {}

  /** The hardware runs the requested stream and nothing of it has happened yet. */
  ghost predicate Begun(h: Hardware, r: Request) {
    && h.configured && h.request == Effective(r) && h.enabled
    && (h.error == 0 ==> h.completed == h.taken == 0 && h.received == [])
  }

  /** A damaged descriptor is refused; an intact one starts the stream asked for. */
  lemma DescriptorArrives(h: Hardware, r: Request, d: seq<byte>)
    requires h.Ok() && Valid(r) && h.enabled && !h.configured && h.error == 0
    ensures Mild(Descriptor(r), d) && Take(h, d).error == 0 && Take(h, d).configured ==> Begun(Take(h, d), r)
    ensures d == Descriptor(r) ==> Begun(Take(h, d), r) && Take(h, d).error == 0 && Take(h, d).present == h.present
    ensures Take(h, d).cart == h.cart && Take(h, d).present == h.present
    ensures !Take(h, d).configured ==> !Take(h, d).Running()
  {
    hide Descriptor, Sealed, Understood, Valid;
    DescriptorRoundTrip(r);
    if Mild(Descriptor(r), d) && d != Descriptor(r) {
      BurstBreaksSeal(Descriptor(r), d);
    }
  }

  lemma BegunAges(h: Hardware, g: Hardware, r: Request)
    requires Aged(h, g)
    ensures g.cart == h.cart && g.present == h.present && (g.error == 0 ==> h.error == 0)
    ensures Begun(h, r) ==> Begun(g, r)
  {}

  /** A receive buffer holds what arrived, no more and no less than its length. */
  function Fit(s: seq<byte>, n: nat): (r: seq<byte>)
    ensures |r| == n && (|s| == n ==> r == s)
  {
    if |s| >= n then s[..n] else s + Zeros(n - |s|)
  }

  /** Without an error, hardware and firmware agree on how far they are and on every byte so far. */
  ghost predicate Linked(h: Hardware, r: Request, done: nat, data: seq<byte>) {
    && h.configured && h.enabled && h.request == Effective(r) && done <= |data|
    && (h.error == 0 ==>
         if r.op.Reading() then h.completed == done && data[..done] == CartSlice(h, r.address, done)
         else h.taken == done && h.received == data[..done])
  }

  lemma EffectiveCounts(r: Request, done: nat)
    requires Valid(r) && done < r.size
    ensures Valid(Effective(r)) && Count(Effective(r), done) == Count(r, done)
    ensures Effective(r).op == r.op && Effective(r).size == r.size && Effective(r).address == r.address
  {}

  lemma PacketTaken(h0: Hardware, h: Hardware, r: Request, done: nat, data: seq<byte>, arrived: seq<byte>)
    requires Valid(r) && !r.op.Reading() && done < r.size <= |data| && h0.Ok() && Aged(h0, h)
    ensures var n := Count(r, done); var sent := Wire(data[done..done + n]); var g := Take(h, arrived);
      && g.Ok() && g.cart == h0.cart && g.present == h0.present
      && (Mild(sent, arrived) && Linked(h0, r, done, data) ==> Linked(g, r, done + n, data))
      && (arrived == sent && Linked(h0, r, done, data) && h.error == 0 ==> g.error == 0 && Linked(g, r, done + n, data))
  {
    hide Valid, Count, Mild, Wire, Accepts;
    EffectiveCounts(r, done);
    var n := Count(r, done);
    var payload := data[done..done + n];
    assert data[..done + n] == data[..done] + payload;
    SentIsAccepted(payload);
    WireIsMild(Wire(payload));
    if Mild(Wire(payload), arrived) {
      MildLength(Wire(payload), arrived);
      if Accepts(arrived, n) {
        MildDamageCaught(payload, arrived);
      }
    }
  }

  lemma WireIsMild(w: seq<byte>)
    ensures Mild(w, w)
  {
    assert EqualOutside(w, w, 0, 0);
  }

  lemma MildLength(a: seq<byte>, b: seq<byte>)
    requires Mild(a, b)
    ensures |a| == |b|
  {}

  lemma GiveKeeps(h: Hardware, n: nat)
    requires h.Ok()
    ensures var g := Give(h, n).1; g == h.(completed := g.completed, error := g.error) && g.Ok()
  {
    hide Count, Waiting;
  }

  /** A packet that passes the check is the cartridge's own bytes. */
  lemma PacketGiven(h0: Hardware, h: Hardware, r: Request, done: nat, data: seq<byte>, data': seq<byte>, fates: nat -> Fate, t: nat)
    requires Valid(r) && r.op.Reading() && done < r.size <= |data| == |data'| && h0.Ok() && Aged(h0, h)
    requires var n := Count(r, done);
      var wire := Fit(fates(t).noise(Give(h, Padded(n) + 8).0), Padded(n) + 8);
      Accepts(wire[LEAD..], n) && data'[..done] == data[..done] && data'[done..done + n] == wire[LEAD..LEAD + n]
    ensures Gentle(fates) && Linked(h0, r, done, data) ==> Linked(Give(h, Padded(Count(r, done)) + 8).1, r, done + Count(r, done), data')
  {
    hide Valid, Count, Mild, Wire, Accepts, Gentle;
    EffectiveCounts(r, done);
    var n := Count(r, done);
    GiveKeeps(h, Padded(n) + 8);
    if Gentle(fates) && Linked(h0, r, done, data) && h.error == 0 {
      var payload := CartSlice(h, r.address + done, n);
      var answer := Give(h, Padded(n) + 8).0;
      assert answer == Zeros(LEAD) + Wire(payload);
      GentleAt(fates, t, answer);
      var wire := fates(t).noise(answer);
      MildLength(answer, wire);
      TailMild(Zeros(LEAD), Wire(payload), wire);
      MildDamageCaught(payload, wire[LEAD..]);
      assert wire[LEAD..][..n] == wire[LEAD..LEAD + n];
      assert data'[..done + n] == data'[..done] + data'[done..done + n];
      assert CartSlice(h, r.address, done + n) == CartSlice(h, r.address, done) + payload;
    }
  }

  lemma PacketClean(h0: Hardware, h: Hardware, r: Request, done: nat, data: seq<byte>, fates: nat -> Fate, t: nat)
    requires Valid(r) && r.op.Reading() && done < r.size <= |data| && h0.Ok() && Aged(h0, h)
    ensures var n := Count(r, done);
      var wire := Fit(fates(t).noise(Give(h, Padded(n) + 8).0), Padded(n) + 8);
      QuietAt(fates, t) && Linked(h0, r, done, data) && h.error == 0 ==>
        Accepts(wire[LEAD..], n) && Give(h, Padded(n) + 8).1.error == 0
  {
    hide Valid, Count, Wire, Accepts;
    EffectiveCounts(r, done);
    var n := Count(r, done);
    var payload := CartSlice(h, r.address + done, n);
    SentIsAccepted(payload);
    assert (Zeros(LEAD) + Wire(payload))[LEAD..] == Wire(payload);
  }

  lemma TailMild(head: seq<byte>, tail: seq<byte>, received: seq<byte>)
    requires Mild(head + tail, received)
    ensures |received| == |head| + |tail| && Mild(tail, received[|head|..])
  {
    hide EqualOutside;
    var k, m := MildPlace(head + tail, received);
    var n := |head|;
    var from := if k <= n then 0 else k - n;
    var to := if k + m <= n then 0 else k + m - n;
    forall x | 0 <= x < |tail| && !(from <= x < to) ensures tail[x] == received[n..][x] {
      OutsideAt(head + tail, received, k, m, n + x);
    }
    OutsideIs(tail, received[n..], from, to - from);
  }

  lemma QuietIsGentle(fates: nat -> Fate)
    requires Quiet(fates)
    ensures Gentle(fates)
  {
    hide Mild;
    forall t: nat, s: seq<byte> ensures Mild(s, fates(t).noise(s)) {
      assert QuietAt(fates, t);
      WireIsMild(s);
    }
  }

  lemma LinkedAges(h: Hardware, g: Hardware, r: Request, done: nat, data: seq<byte>)
    requires Aged(h, g)
    ensures g.Ok() && g.cart == h.cart && g.present == h.present
    ensures Linked(h, r, done, data) ==> Linked(g, r, done, data)
  {}

  lemma LinkedShows(h: Hardware, r: Request, done: nat, data: seq<byte>)
    requires Valid(r)
    ensures Linked(h, r, done, data) && h.error == 0 && done < r.size ==>
      h.enabled && WillShow(h, if r.op.Reading() then TxReady else RxReady, r.size)
    ensures Linked(h, r, done, data) && h.error == 0 && done == r.size ==> h.enabled && WillShow(h, Done, r.size)
  {}

  lemma NoCancel(fates: nat -> Fate, t: nat)
    ensures Quiet(fates) ==> fates(t).cancel == NoError
  {
    if Quiet(fates) {
      assert QuietAt(fates, t);
    }
  }

  lemma BegunLinks(h: Hardware, r: Request, data: seq<byte>)
    ensures Begun(h, r) ==> Linked(h, r, 0, data)
  {}

  /** What a finished stream has moved: the cartridge's bytes into the buffer, or the
      buffer's bytes into the hardware. */
  ghost predicate Moved(h: Hardware, r: Request, data: seq<byte>)
    requires r.size <= |data|
  {
    if r.op.Reading() then data[..r.size] == CartSlice(h, r.address, r.size) else h.received == data[..r.size]
  }

  lemma LinkedDelivers(h: Hardware, r: Request, data: seq<byte>)
    requires r.size <= |data|
    ensures Linked(h, r, r.size, data) && h.error == 0 ==> h.request == Effective(r) && Moved(h, r, data)
  {}
}
