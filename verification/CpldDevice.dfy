/** The streaming hardware behind the CPLD link: one descriptor per stream, checked packets,
    completion counts. After example/logic/bacon_cpld_stream.v. */
module CpldDevice {
  import opened Bytes
  import opened Crc32
  import opened CpldPackets

  // ---- the descriptor ----------------------------------------------------------------------------

  const DESCRIPTOR_BYTES: nat := 20

  function Le32(x: u32): (r: seq<byte>)
    ensures |r| == 4
  {
    LowBytes(ToWord(x), 4)
  }

  function DescriptorBody(r: Request): (d: seq<byte>)
    requires Valid(r)
    ensures |d| == DESCRIPTOR_BYTES - 4
  {
    var mask := if r.op.Programming() then r.page - 1 else 0;
    [0x42, 0x53, 0x43, 0x31, r.op.Code(), 0, Lane(mask), Lane(mask / 0x100)] + Le32(r.address) + Le32(r.size)
  }

  function Descriptor(r: Request): (d: seq<byte>)
    requires Valid(r)
    ensures |d| == DESCRIPTOR_BYTES
  {
    DescriptorBody(r) + ChecksumBytes(Checksum(DescriptorBody(r)))
  }

  datatype Option<T> = None | Some(value: T)

  function OperationOf(code: byte): Option<Operation> {
    if code == 1 then Some(GbaRead) else if code == 2 then Some(GbaWrite) else if code == 3 then Some(GbaProgram)
    else if code == 4 then Some(GbRead) else if code == 5 then Some(GbWrite) else if code == 6 then Some(GbProgram)
    else None
  }

  /** What the hardware makes of a descriptor whose checksum is right. */
  function Understood(d: seq<byte>): Option<Request>
    requires |d| == DESCRIPTOR_BYTES
  {
    if d[..4] != [0x42, 0x53, 0x43, 0x31] || d[5] != 0 || OperationOf(d[4]).None? then None
    else
      var r := Request(OperationOf(d[4]).value, FromWord(WordAt(d, 8)), FromWord(WordAt(d, 12)),
                       Value(d[6]) + 0x100 * Value(d[7]) + 1);
      if Valid(r) then Some(r) else None
  }

  /** The stream the hardware will run: outside programming the page field is not used. */
  function Effective(r: Request): Request { if r.op.Programming() then r else r.(page := 1) }

  lemma DescriptorRoundTrip(r: Request)
    requires Valid(r)
    ensures Sealed(Descriptor(r)) && Understood(Descriptor(r)) == Some(Effective(r))
  {
    hide Checksum, Field, Lane, Value, ToWord, FromWord, DescriptorBody, Valid, Sealed;
    var body := DescriptorBody(r);
    var d := Descriptor(r);
    SealedByChecksum(body);
    BodyLayout(r);
    assert d[..4] == body[..4] && d[4] == body[4] && d[5] == body[5] && d[6] == body[6] && d[7] == body[7];
    assert WordAt(d, 8) == WordAt(body, 8) && WordAt(d, 12) == WordAt(body, 12);
    WordRoundTrip(r.address);
    WordRoundTrip(r.size);
    PageField(r);
    OperationCodes(r.op);
    EffectiveValid(r);
  }

  lemma SealedByChecksum(body: seq<byte>)
    ensures Sealed(body + ChecksumBytes(Checksum(body)))
  {
    hide Checksum, Field;
    var tail := ChecksumBytes(Checksum(body));
    FieldOfChecksum(Checksum(body));
    assert (body + tail)[..|body|] == body && (body + tail)[|body|..] == tail;
  }

  lemma BodyLayout(r: Request)
    requires Valid(r)
    ensures var body := DescriptorBody(r); var mask := if r.op.Programming() then r.page - 1 else 0;
      && body[..4] == [0x42, 0x53, 0x43, 0x31] && body[4] == r.op.Code() && body[5] == 0
      && body[6] == Lane(mask) && body[7] == Lane(mask / 0x100)
      && WordAt(body, 8) == ToWord(r.address) && WordAt(body, 12) == ToWord(r.size)
  {
    hide Lane, ToWord, Valid;
  }

  lemma PageField(r: Request)
    requires Valid(r)
    ensures var mask := if r.op.Programming() then r.page - 1 else 0;
      Value(Lane(mask)) + 0x100 * Value(Lane(mask / 0x100)) == mask
  {
    hide Lane, Value;
    var mask := if r.op.Programming() then r.page - 1 else 0;
    LaneValue(mask);
    LaneValue(mask / 0x100);
  }

  lemma EffectiveValid(r: Request)
    requires Valid(r)
    ensures Valid(Effective(r))
  {}

  lemma OperationCodes(op: Operation)
    ensures OperationOf(op.Code()) == Some(op)
  {}

  // ---- the hardware's own arithmetic -----------------------------------------------------------------

  predicate PowerOfTwoWord(page: bv16) {
    page == 1 || page == 2 || page == 4 || page == 8 || page == 16 || page == 32 || page == 64 || page == 128
    || page == 256 || page == 512 || page == 1024
  }

  /** The hardware's test of a page mask admits exactly the powers of two. */
  lemma MaskTest(page: bv16)
    requires 1 <= page <= 1024
    ensures (page - 1) & page == 0 <==> PowerOfTwoWord(page)
  {}

  // ---- the machine -------------------------------------------------------------------------------------

  datatype Hardware = Hardware(
    cart: nat -> byte,     // what the cartridge yields, by byte address
    present: bool, enabled: bool, configured: bool, error: byte,
    request: Request,      // the stream being run
    taken: nat,            // bytes accepted from the host
    completed: nat,        // bytes delivered to the host, or to the cartridge
    received: seq<byte>)   // everything accepted from the host
  {
    ghost predicate Ok() {
      configured ==>
        && Valid(request) && completed <= request.size && taken <= request.size
        && (!request.op.Reading() ==> completed <= taken && |received| == taken)
    }

    predicate Running() { enabled && configured && error == 0 }
  }

  function Entered(h: Hardware): Hardware { h.(enabled := h.present) }

  function Exited(h: Hardware): Hardware {
    h.(enabled := false, configured := false, error := 0, taken := 0, completed := 0, received := [])
  }

  /** What goes on by itself between two looks: writes reach the cartridge, faults turn up. */
  function Elapsed(h: Hardware, settled: nat, fault: byte): Hardware {
    if !h.Running() then h
    else
      var g := if h.request.op.Reading() then h
               else h.(completed := if h.completed + settled > h.taken then h.taken else h.completed + settled);
      g.(error := fault)
  }

  datatype Status = Status(
    known: bool, mode: bool, configured: bool, done: bool, failed: bool, rxReady: bool, txReady: bool,
    completed: nat, code: byte)

  function StatusOf(h: Hardware, ready: bool): Status {
    Status(
      known := true,
      mode := h.enabled,
      configured := h.configured,
      done := h.configured && h.error == 0 && h.completed == h.request.size,
      failed := h.error != 0,
      rxReady := h.Running() && !h.request.op.Reading() && h.taken < h.request.size && ready,
      txReady := h.Running() && h.request.op.Reading() && h.completed < h.request.size && ready,
      completed := h.completed,
      code := h.error)
  }

  function Start(h: Hardware, d: seq<byte>): (g: Hardware)
    requires h.Ok()
    ensures g.Ok()
  {
    if |d| != DESCRIPTOR_BYTES || !Sealed(d) then h.(error := 4)
    else match Understood(d)
      case None => h.(error := 5)
      case Some(r) => h.(configured := true, request := r, taken := 0, completed := 0, received := [])
  }

  /** Bytes arriving on the write side: first the descriptor, then packets. */
  function Take(h: Hardware, w: seq<byte>): (g: Hardware)
    requires h.Ok()
    ensures g.Ok()
  {
    if !h.enabled || h.error != 0 || w == [] then h
    else if !h.configured then Start(h, w)
    else if h.request.op.Reading() || h.taken == h.request.size then h.(error := 3)
    else
      var n := Count(h.request, h.taken);
      if Accepts(w, n) then h.(taken := h.taken + n, received := h.received + w[..n])
      else h.(error := 6)
  }

  function CartSlice(h: Hardware, at: nat, n: nat): (s: seq<byte>)
    ensures |s| == n
  {
    seq(n, i requires 0 <= i => h.cart(at + i))
  }

  /** The packet now waiting to be read. */
  function Waiting(h: Hardware): (w: seq<byte>)
    requires h.Ok() && h.Running() && h.request.op.Reading() && h.completed < h.request.size
  {
    Zeros(LEAD) + Wire(CartSlice(h, h.request.address + h.completed, Count(h.request, h.completed)))
  }

  /** Clocking bytes out: the answer and what has become of the hardware. */
  function Give(h: Hardware, n: nat): (r: (seq<byte>, Hardware))
    requires h.Ok()
    ensures |r.0| == n && r.1.Ok()
  {
    if !h.Running() then (Zeros(n), h)
    else if !h.request.op.Reading() || h.completed == h.request.size || |Waiting(h)| != n then (Zeros(n), h.(error := 7))
    else (Waiting(h), h.(completed := h.completed + Count(h.request, h.completed)))
  }

  /** Time has passed and nothing else. */
  ghost predicate Aged(h: Hardware, g: Hardware) {
    && g == h.(completed := g.completed, error := g.error) && g.Ok()
    && (!h.Running() ==> g == h)
    && (h.request.op.Reading() ==> g.completed == h.completed)
  }

  lemma ElapsedAges(h: Hardware, settled: nat, fault: byte)
    requires h.Ok()
    ensures Aged(h, Elapsed(h, settled, fault))
  {}

  lemma AgedTrans(a: Hardware, b: Hardware, c: Hardware)
    requires Aged(a, b) && Aged(b, c)
    ensures Aged(a, c)
  {}
}
