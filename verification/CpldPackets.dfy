/** How a CPLD stream is cut into packets and how one packet travels: payload, padding to
    whole words, checksum of the payload alone. */
module CpldPackets {
  import opened Bytes
  import opened Crc32

  const READ_BYTES: nat := 1020
  const BLOCK_BYTES: nat := 1024
  const LEAD: nat := 4
  const GBA_WINDOW: nat := 33_554_432
  const GB_WINDOW: nat := 65_536

  datatype Operation = GbaRead | GbaWrite | GbaProgram | GbRead | GbWrite | GbProgram {
    predicate Gb() { GbRead? || GbWrite? || GbProgram? }

    predicate Reading() { GbaRead? || GbRead? }

    predicate Programming() { GbaProgram? || GbProgram? }

    function Code(): byte {
      match this
      case GbaRead => 1
      case GbaWrite => 2
      case GbaProgram => 3
      case GbRead => 4
      case GbWrite => 5
      case GbProgram => 6
    }
  }

  /** A stream as requested: where, how much, and the page size of the flash being programmed. */
  datatype Request = Request(op: Operation, address: u32, size: u32, page: nat) {
    function Window(): nat { if op.Gb() then GB_WINDOW else GBA_WINDOW }

    function MaxPage(): nat { if op.Gb() then 256 else 1024 }
  }

  predicate PowerOfTwo(n: nat) {
    n == 1 || n == 2 || n == 4 || n == 8 || n == 16 || n == 32 || n == 64 || n == 128 || n == 256 || n == 512 || n == 1024
  }

  /** What the firmware sends: inside the window, whole words on the wide bus, programming
      by pages of two bytes up to what the part allows. */
  predicate Valid(r: Request) {
    && 0 < r.size && r.address + r.size <= r.Window()
    && (!r.op.Gb() ==> r.address % 2 == 0 && r.size % 2 == 0)
    && (r.op.Programming() ==> 2 <= r.page <= r.MaxPage() && PowerOfTwo(r.page))
  }

  /** The most a packet starting at a stream position may carry. */
  function Limit(r: Request, done: nat): nat
    requires Valid(r)
  {
    if r.op.Programming() then r.page - (r.address + done) % r.page
    else if r.op.Reading() then READ_BYTES
    else BLOCK_BYTES
  }

  function Count(r: Request, done: nat): (n: nat)
    requires Valid(r) && done < r.size
    ensures 0 < n <= BLOCK_BYTES && done + n <= r.size
    ensures r.op.Reading() ==> n <= READ_BYTES
  {
    var left := r.size - done;
    if left > Limit(r, done) then Limit(r, done) else left
  }

  /** Stream positions where packets start. */
  function Starts(r: Request, done: nat): seq<nat>
    requires Valid(r) && done <= r.size
    decreases r.size - done
  {
    if done == r.size then [] else [done] + Starts(r, done + Count(r, done))
  }

  ghost predicate GoodPacket(r: Request, done: nat)
    requires Valid(r) && done < r.size
  {
    var n := Count(r, done);
    && (r.op.Programming() ==> (r.address + done) / r.page == (r.address + done + n - 1) / r.page)
    && (!r.op.Gb() ==> (r.address + done) % 2 == 0 && n % 2 == 0)
    && LEAD + Padded(n) + 4 <= BLOCK_BYTES + 8
    && Full(r, done, n)
  }

  /** A packet that could not carry more: it ends the stream or its page, or fills the buffer. */
  predicate Full(r: Request, done: nat, n: nat)
    requires Valid(r)
  {
    || done + n == r.size
    || (r.op.Programming() && (r.address + done + n) % r.page == 0)
    || (!r.op.Programming() && n == if r.op.Reading() then READ_BYTES else BLOCK_BYTES)
  }

  /** Consecutive packets, each starting where the one before ends, the last at the end. */
  ghost predicate Partition(r: Request, done: nat, starts: seq<nat>)
    requires Valid(r) && done <= r.size
  {
    && (starts == [] <==> done == r.size)
    && (starts != [] ==> starts[0] == done)
    && (forall k | 0 <= k < |starts| :: PacketAt(r, starts, k))
  }

  ghost predicate PacketAt(r: Request, starts: seq<nat>, k: nat)
    requires Valid(r) && k < |starts|
  {
    && starts[k] < r.size && GoodPacket(r, starts[k])
    && starts[k] + Count(r, starts[k]) == (if k + 1 < |starts| then starts[k + 1] else r.size)
  }

  /** The packets of any valid stream cover it in order without gap or overlap; programming
      packets stay inside one page, wide-bus packets are whole words, and every packet fits
      the wire buffer. */
  lemma {:induction false} PacketsPartition(r: Request, done: nat)
    requires Valid(r) && done <= r.size && (!r.op.Gb() ==> done % 2 == 0)
    ensures Partition(r, done, Starts(r, done))
    decreases r.size - done
  {
    hide GoodPacket, Count;
    if done < r.size {
      PacketIsGood(r, done);
      var next := done + Count(r, done);
      PacketsPartition(r, next);
      PartitionStep(r, done, Starts(r, next));
    }
  }

  lemma PartitionStep(r: Request, done: nat, rest: seq<nat>)
    requires Valid(r) && done < r.size && GoodPacket(r, done) && Partition(r, done + Count(r, done), rest)
    ensures Partition(r, done, [done] + rest)
  {
    hide GoodPacket, Valid;
    var all := [done] + rest;
    forall k | 0 <= k < |all| ensures PacketAt(r, all, k) {
      if k > 0 {
        assert PacketAt(r, rest, k - 1);
        assert all[k] == rest[k - 1];
      } else if rest != [] {
        assert all[1] == rest[0];
      }
    }
  }

  lemma PacketIsFull(r: Request, done: nat)
    requires Valid(r) && done < r.size
    ensures Full(r, done, Count(r, done))
  {
    hide PowerOfTwo;
    if r.op.Programming() {
      NextPage(r.address + done, r.page);
    }
  }

  lemma NextPage(at: nat, page: nat)
    requires page > 0
    ensures (at + (page - at % page)) % page == 0
  {
    Remainder(at + (page - at % page), page, at / page + 1);
  }

  lemma Remainder(x: nat, page: nat, q: nat)
    requires page > 0 && x == page * q
    ensures x % page == 0
  {
    var p, r := x / page, x % page;
    assert x == page * p + r;
    assert page * (q - p) == r;
    if q > p {
      Times(page, q - p);
    } else {
      TimesBelow(page, p - q);
    }
  }

  lemma Times(page: nat, k: nat)
    requires k > 0
    ensures page * k >= page
  {
    assert page * k == page + page * (k - 1);
  }

  lemma TimesBelow(page: int, k: int)
    requires page >= 0 && k >= 0
    ensures page * -k <= 0
  {}

  lemma PacketIsGood(r: Request, done: nat)
    requires Valid(r) && done < r.size && (!r.op.Gb() ==> done % 2 == 0)
    ensures GoodPacket(r, done)
    ensures !r.op.Gb() ==> (done + Count(r, done)) % 2 == 0
  {
    hide PowerOfTwo, Limit, Padded, Count, Full;
    PacketIsFull(r, done);
    PaddedFits(Count(r, done));
    if !r.op.Gb() {
      EvenCount(r, done);
    }
    if r.op.Programming() {
      PageRoom(r, done);
      InOnePage(r.address + done, r.page, Count(r, done));
    }
  }

  lemma PaddedFits(n: nat)
    requires n <= BLOCK_BYTES
    ensures LEAD + Padded(n) + 4 <= BLOCK_BYTES + 8
  {}

  lemma PageRoom(r: Request, done: nat)
    requires Valid(r) && done < r.size && r.op.Programming()
    ensures 0 < r.page && 0 < Count(r, done) <= r.page - (r.address + done) % r.page
  {
    hide PowerOfTwo;
  }

  lemma EvenCount(r: Request, done: nat)
    requires Valid(r) && done < r.size && !r.op.Gb() && done % 2 == 0
    ensures (r.address + done) % 2 == 0 && Count(r, done) % 2 == 0 && (done + Count(r, done)) % 2 == 0
  {
    hide PowerOfTwo, Limit;
    EvenLimit(r, done);
  }

  lemma EvenLimit(r: Request, done: nat)
    requires Valid(r) && done < r.size && !r.op.Gb() && done % 2 == 0
    ensures Limit(r, done) % 2 == 0
  {
    if r.op.Programming() {
      EvenPages(r.address + done, r.page);
    }
  }

  lemma InOnePage(at: nat, page: nat, n: nat)
    requires 0 < page && 0 < n <= page - at % page
    ensures at / page == (at + n - 1) / page
  {
    var q, m := at / page, at % page;
    assert at == q * page + m;
    var x := m + n - 1;
    assert 0 <= x < page;
    DivideBack(q, page, x);
  }

  lemma DivideBack(q: nat, d: nat, x: nat)
    requires x < d
    ensures (q * d + x) / d == q
  {
    var y := (q * d + x) / d;
    assert q * d + x == y * d + (q * d + x) % d;
    assert y < q ==> (y + 1) * d <= q * d;
    assert y > q ==> (q + 1) * d <= y * d;
  }

  lemma EvenPages(at: nat, page: nat)
    requires PowerOfTwo(page) && page >= 2 && at % 2 == 0
    ensures (page - at % page) % 2 == 0
  {
    hide PowerOfTwo;
    EvenPower(page);
    WholePages(at, page);
    EvenMultiple(page, at / page);
    EvenRest(page, page * (at / page), at);
  }

  lemma EvenPower(page: nat)
    requires PowerOfTwo(page) && page >= 2
    ensures page % 2 == 0
  {}

  lemma WholePages(at: nat, page: nat)
    requires page > 0
    ensures at % page == at - page * (at / page)
  {}

  lemma EvenMultiple(page: nat, q: nat)
    requires page % 2 == 0
    ensures page * q % 2 == 0
  {
    TwiceTimes(page, page / 2, q);
    TwiceIsEven(page * q, page / 2 * q);
  }

  lemma TwiceTimes(page: nat, h: nat, q: nat)
    requires page == 2 * h
    ensures page * q == 2 * (h * q)
  {}

  lemma TwiceIsEven(x: int, z: int)
    requires x == 2 * z
    ensures x % 2 == 0
  {}

  lemma EvenRest(page: nat, whole: int, at: nat)
    requires page % 2 == 0 && whole % 2 == 0 && at % 2 == 0
    ensures (page - (at - whole)) % 2 == 0
  {}

  function Padded(n: nat): nat { (n + 3) / 4 * 4 }

  // ---- one packet on the wire ------------------------------------------------------------------

  function Zeros(n: nat): (r: seq<byte>)
    ensures |r| == n
  {
    seq(n, i => 0)
  }

  function Wire(payload: seq<byte>): (w: seq<byte>)
    ensures |w| == Padded(|payload|) + 4
  {
    payload + Zeros(Padded(|payload|) - |payload|) + ChecksumBytes(Checksum(payload))
  }

  /** Payload and checksum of a received packet, padding dropped. */
  function Stripped(w: seq<byte>, n: nat): (code: seq<byte>)
    requires |w| == Padded(n) + 4
    ensures |code| == n + 4
  {
    w[..n] + w[Padded(n)..]
  }

  /** The receiver's check. */
  predicate Accepts(w: seq<byte>, n: nat) { |w| == Padded(n) + 4 && Sealed(Stripped(w, n)) }

  lemma SentIsAccepted(payload: seq<byte>)
    ensures Accepts(Wire(payload), |payload|) && Wire(payload)[..|payload|] == payload
  {
    hide Checksum, Field;
    var n := |payload|;
    FieldOfChecksum(Checksum(payload));
    assert Stripped(Wire(payload), n)[..n] == payload;
    assert Stripped(Wire(payload), n)[n..] == ChecksumBytes(Checksum(payload));
  }

  /** At most four consecutive bytes arrive changed. */
  ghost predicate Mild(sent: seq<byte>, received: seq<byte>) {
    |received| == |sent| && exists k: nat, m: nat :: EqualOutside(sent, received, k, m)
  }

  /** Damage of up to four consecutive bytes on the wire, padding included, never gets a
      wrong payload accepted. */
  lemma MildDamageCaught(payload: seq<byte>, received: seq<byte>)
    requires Mild(Wire(payload), received) && Accepts(received, |payload|)
    ensures received[..|payload|] == payload
  {
    hide Checksum, Sealed, Wire;
    var n := |payload|;
    SentIsAccepted(payload);
    var a, b := Stripped(Wire(payload), n), Stripped(received, n);
    if a != b {
      StrippedMild(Wire(payload), received, n);
      BurstBreaksSeal(a, b);
    }
    assert a[..n] == payload && b[..n] == received[..n];
  }

  /** Dropping the padding cannot spread damage. */
  lemma StrippedMild(w: seq<byte>, v: seq<byte>, n: nat)
    requires |w| == |v| == Padded(n) + 4 && Mild(w, v)
    ensures var a, b := Stripped(w, n), Stripped(v, n); a != b ==> Burst(a, b)
  {
    hide Padded, Stripped, EqualOutside;
    var k, m := MildPlace(w, v);
    PaddedBounds(n);
    var a, b, p := Stripped(w, n), Stripped(v, n), Padded(n);
    var from := if k <= n then k else if k < p then n else k - p + n;
    var to := if k + m <= n then k + m else if k + m <= p then n else k + m - p + n;
    forall y | 0 <= y < n + 4 && !(from <= y < to) ensures a[y] == b[y] {
      var x := if y < n then y else p + (y - n);
      StrippedAt(w, n, y);
      StrippedAt(v, n, y);
      OutsideAt(w, v, k, m, x);
    }
    OutsideIs(a, b, from, to - from);
  }

  lemma MildPlace(w: seq<byte>, v: seq<byte>) returns (k: nat, m: nat)
    requires Mild(w, v)
    ensures EqualOutside(w, v, k, m) && m <= 4 && k + m <= |w| == |v|
  {
    k, m :| EqualOutside(w, v, k, m);
  }

  lemma PaddedBounds(n: nat)
    ensures n <= Padded(n) < n + 4
  {}

  lemma StrippedAt(w: seq<byte>, n: nat, y: nat)
    requires |w| == Padded(n) + 4 && y < n + 4
    ensures n <= Padded(n) && Stripped(w, n)[y] == w[if y < n then y else Padded(n) + (y - n)]
  {}
}
