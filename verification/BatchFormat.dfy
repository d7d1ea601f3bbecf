/** The AG32 firmware batch: header-and-payload pairs laid end to end in one file. */
module BatchFormat {
  import opened Bytes
  import opened Crc32

  const HEADER_SIZE: nat := 256
  const MAX_RECORDS: nat := 16
  const DEVICE_ID := 0x4020_0001
  const FLASH_BASE := 0x8000_0000
  const FLASH_SIZE := 0x0010_0000
  const OPTION_BASE := 0x8100_0000
  const OPTION_SIZE := 128
  const SECTOR_SIZE := 0x1000
  const RUN_RESET := 2
  const RUN_STOP := 4

  datatype Kind = Flash | OptionBytes

  datatype Record = Record(
    deviceId: u32, payloadSize: u32, address: u32, recordType: u32,
    eraseOptions: u32, programOptions: u32, runOptions: u32,
    encryptOffset: u32, encryptSize: u32, version: u32, headerCrc: bv32,
    payloadOffset: u32, kind: Kind)
  {
    function End(): int { payloadOffset + payloadSize }

    function AddressEnd(): int { address + payloadSize }

    /** The low half word of the run options; the high half is ignored. */
    function RunFlags(): int { runOptions % 0x1_0000 }
  }

  datatype Manifest = Manifest(
    fileSize: u32, payloadBytes: u32, recordCount: u32, flashRecordCount: u32, records: seq<Record>)

  datatype ParseError =
    | BadFileSize
    | TooManyRecords
    | HeaderTruncated(record: nat)
    | HeaderCrcMismatch(record: nat)
    | UnsupportedVersion(record: nat)
    | WrongDevice(record: nat)
    | UnsupportedTypeOrEncryption(record: nat)
    | UnsupportedOptions(record: nat)
    | UnalignedFlash(record: nat)
    | OutsideFlash(record: nat)
    | PayloadTruncated(record: nat)
    | Overlap(record: nat, other: nat)
    | BadOptionBytes
    | Incomplete
    | LastNotMain
    | EarlyRunFlags(record: nat)
    | LastRunFlags

  datatype Result<+T, +E> = Ok(value: T) | Err(error: E)

  // ---- header fields and ranges -------------------------------------------------------

  /** A little-endian 32-bit field. */
  function ReadLe32(bytes: seq<byte>, at: nat): u32
    requires at + 4 <= |bytes|
  {
    FromWord(WordAt(bytes, at))
  }

  predicate RangeFits(address: u32, size: u32, base: u32, capacity: u32) {
    size > 0 && address >= base && address + size <= base + capacity
  }

  predicate RangesOverlap(firstAddress: u32, firstSize: u32, secondAddress: u32, secondSize: u32) {
    firstAddress < secondAddress + secondSize && secondAddress < firstAddress + firstSize
  }

  /** The fields of a header whose payload starts at the given file offset. The kind
      is not in the header; it follows from the address range. */
  function Fields(header: seq<byte>, payloadOffset: u32, kind: Kind): Record
    requires |header| == HEADER_SIZE
  {
    Record(ReadLe32(header, 0), ReadLe32(header, 4), ReadLe32(header, 8), ReadLe32(header, 12),
           ReadLe32(header, 16), ReadLe32(header, 20), ReadLe32(header, 24),
           ReadLe32(header, 28), ReadLe32(header, 32), ReadLe32(header, HEADER_SIZE - 8),
           Field(header[HEADER_SIZE - 4..]), payloadOffset, kind)
  }

  lemma FieldsShape(header: seq<byte>, payloadOffset: u32)
    requires |header| == HEADER_SIZE
    ensures forall k :: Fields(header, payloadOffset, k) == Fields(header, payloadOffset, Flash).(kind := k)
    ensures Fields(header, payloadOffset, Flash).kind == Flash
    ensures Fields(header, payloadOffset, Flash).payloadOffset == payloadOffset
    ensures Sealed(header) <==> Checksum(header[..HEADER_SIZE - 4]) == Fields(header, payloadOffset, Flash).headerCrc
  {
    hide Checksum, Field, ReadLe32;
  }

  lemma ChecksumIsUpdate(data: seq<byte>)
    ensures Checksum(data) == Update(0, data)
  {
    hide Update;
  }

  /** The parser's per-header checks, in the order it makes them: first the seal. */
  method DecodeRecord(header: seq<byte>, payloadOffset: u32, index: nat) returns (r: Result<Record, ParseError>)
    requires |header| == HEADER_SIZE
    ensures r.Ok? ==> Accepted(header, r.value) && r.value.payloadOffset == payloadOffset
    ensures r.Err? ==> forall rec: Record | rec.payloadOffset == payloadOffset :: !Accepted(header, rec)
  {
    hide Fields, Sealed, Checksum, Supported;
    var record := Fields(header, payloadOffset, Flash);
    var crc := UpdateBitwise(0, header[..HEADER_SIZE - 4]);
    FieldsShape(header, payloadOffset);
    assert crc == Checksum(header[..HEADER_SIZE - 4]) by { ChecksumIsUpdate(header[..HEADER_SIZE - 4]); }
    if crc != record.headerCrc {
      return Err(HeaderCrcMismatch(index));
    }
    var kind := KindOf(record, index);
    if kind.Err? {
      return Err(kind.error);
    }
    return Ok(record.(kind := kind.value));
  }

  /** Then the fields; the kind of a record is that of the window it lies in. */
  method KindOf(record: Record, index: nat) returns (r: Result<Kind, ParseError>)
    ensures r.Ok? ==> Supported(record.(kind := r.value))
    ensures r.Err? ==> forall k: Kind :: !Supported(record.(kind := k))
  {
    if record.version != 1 {
      return Err(UnsupportedVersion(index));
    }
    if record.deviceId != DEVICE_ID {
      return Err(WrongDevice(index));
    }
    if record.recordType != 0 || record.encryptOffset != 0 || record.encryptSize != 0 {
      return Err(UnsupportedTypeOrEncryption(index));
    }
    if record.eraseOptions > 1 || record.programOptions != 1 || !SupportedRunFlags(record) {
      return Err(UnsupportedOptions(index));
    }
    if RangeFits(record.address, record.payloadSize, FLASH_BASE, FLASH_SIZE) {
      if record.address % 4 != 0 || (record.eraseOptions != 0 && record.address % SECTOR_SIZE != 0) {
        return Err(UnalignedFlash(index));
      }
      return Ok(Flash);
    } else if RangeFits(record.address, record.payloadSize, OPTION_BASE, OPTION_SIZE) {
      return Ok(OptionBytes);
    } else {
      return Err(OutsideFlash(index));
    }
  }

  /** No run flag besides reset and stop: bits 1 and 2 of the low half word. */
  predicate SupportedRunFlags(r: Record) {
    var f := r.RunFlags();
    f == 0 || f == RUN_RESET || f == RUN_STOP || f == RUN_RESET + RUN_STOP
  }

  // ---- what a batch is -------------------------------------------------------------------

  /** A header of the one supported form, holding exactly this record. */
  ghost predicate Accepted(header: seq<byte>, r: Record) {
    && |header| == HEADER_SIZE
    && Sealed(header)
    && r == Fields(header, r.payloadOffset, r.kind)
    && Supported(r)
  }

  /** What the parser supports: plain AG32VF407 programming inside one of the two address
      windows, flash starts aligned to words, or to sectors where the record erases. */
  ghost predicate Supported(r: Record) {
    && r.version == 1 && r.deviceId == DEVICE_ID
    && r.recordType == 0 && r.encryptOffset == 0 && r.encryptSize == 0
    && r.eraseOptions <= 1 && r.programOptions == 1 && SupportedRunFlags(r)
    && r.payloadSize > 0
    && match r.kind
       case Flash =>
         && FLASH_BASE <= r.address && r.AddressEnd() <= FLASH_BASE + FLASH_SIZE
         && r.address % 4 == 0
         && (r.eraseOptions == 1 ==> r.address % SECTOR_SIZE == 0)
       case OptionBytes =>
         OPTION_BASE <= r.address && r.AddressEnd() <= OPTION_BASE + OPTION_SIZE
  }

  ghost predicate Disjoint(a: Record, b: Record) {
    a.AddressEnd() <= b.address || b.AddressEnd() <= a.address
  }

  function HeaderOf(file: seq<byte>, r: Record): seq<byte>
  {
    if HEADER_SIZE <= r.payloadOffset <= |file| then file[r.payloadOffset - HEADER_SIZE..r.payloadOffset] else []
  }

  function PayloadOf(file: seq<byte>, r: Record): seq<byte>
  {
    if r.End() <= |file| then file[r.payloadOffset..r.End()] else []
  }

  /** Where the next header would start. */
  function EndOf(rs: seq<Record>): int { EndBefore(rs, |rs|) }

  /** Records laid end to end from the start of the file, payloads inside it. */
  ghost predicate Tiled(file: seq<byte>, rs: seq<Record>) {
    forall i | 0 <= i < |rs| :: TiledAt(file, rs, i)
  }

  /** Record i starts right after its header, which starts where record i - 1 ends. */
  ghost predicate TiledAt(file: seq<byte>, rs: seq<Record>, i: nat)
    requires i < |rs|
  {
    rs[i].payloadOffset == EndBefore(rs, i) + HEADER_SIZE && rs[i].End() <= |file|
  }

  function EndBefore(rs: seq<Record>, i: nat): int
    requires i <= |rs|
  {
    if i == 0 then 0 else rs[i - 1].End()
  }

  ghost predicate AllAccepted(file: seq<byte>, rs: seq<Record>) {
    forall i | 0 <= i < |rs| :: Accepted(HeaderOf(file, rs[i]), rs[i])
  }

  /** Tiled records with accepted headers, same-kind address ranges pairwise disjoint,
      option bytes nowhere but in a well-formed first record. */
  ghost predicate Chain(file: seq<byte>, rs: seq<Record>) {
    && |rs| <= MAX_RECORDS
    && Tiled(file, rs)
    && AllAccepted(file, rs)
    && SameKindDisjoint(rs)
    && OptionsFirst(file, rs)
  }

  ghost predicate SameKindDisjoint(rs: seq<Record>) {
    forall i, j | 0 <= i < j < |rs| :: rs[i].kind == rs[j].kind ==> Disjoint(rs[i], rs[j])
  }

  ghost predicate OptionsFirst(file: seq<byte>, rs: seq<Record>) {
    forall i | 0 <= i < |rs| :: rs[i].kind == OptionBytes ==> i == 0 && FullOptions(file, rs[i])
  }

  ghost predicate FullOptions(file: seq<byte>, r: Record) {
    && r.address == OPTION_BASE && r.payloadSize == OPTION_SIZE && r.eraseOptions == 1
    && r.End() <= |file|
    && file[r.payloadOffset] == 0xa5 && file[r.payloadOffset + 1] == 0x5a
  }

  /** A complete batch: the option record, then flash records, the MCU program last and
      alone in asking for reset and stop; nothing before, between or after. */
  ghost predicate IsBatch(file: seq<byte>, rs: seq<Record>) {
    && 0 < |file| < 0x1_0000_0000
    && Chain(file, rs)
    && EndOf(rs) == |file|
    && Complete(rs)
  }

  function Total(rs: seq<Record>): nat
  {
    if rs == [] then 0 else Total(rs[..|rs| - 1]) + rs[|rs| - 1].payloadSize
  }

  function CountFlash(rs: seq<Record>): nat {
    if rs == [] then 0
    else CountFlash(rs[..|rs| - 1]) + (if rs[|rs| - 1].kind == Flash then 1 else 0)
  }

  ghost predicate IsManifest(file: seq<byte>, m: Manifest) {
    && IsBatch(file, m.records)
    && m.fileSize == |file|
    && m.recordCount == |m.records|
    && m.flashRecordCount == CountFlash(m.records)
    && m.payloadBytes == Total(m.records)
  }

  // ---- one file holds at most one batch -----------------------------------------------------

  ghost predicate Extends(rs: seq<Record>, all: seq<Record>) {
    |rs| <= |all| && all[..|rs|] == rs
  }

  lemma {:induction false} EndsGrow(file: seq<byte>, rs: seq<Record>, i: nat, k: nat)
    requires Tiled(file, rs) && i < k <= |rs|
    ensures EndBefore(rs, i) < EndBefore(rs, k)
  {
    assert TiledAt(file, rs, k - 1);
    if i < k - 1 {
      EndsGrow(file, rs, i, k - 1);
    }
  }

  /** A batch that agrees with the records read so far continues right where they end. */
  lemma NextRecord(file: seq<byte>, rs: seq<Record>, all: seq<Record>)
    requires IsBatch(file, all) && Extends(rs, all) && EndOf(rs) < |file|
    ensures |rs| < |all|
    ensures all[|rs|].payloadOffset == EndOf(rs) + HEADER_SIZE && all[|rs|].End() <= |file|
    ensures Accepted(HeaderOf(file, all[|rs|]), all[|rs|])
  {
    hide Accepted, HeaderOf, SameKindDisjoint, OptionsFirst, Complete;
    assert all[..|all|] == all;
    assert EndBefore(all, |rs|) == EndOf(rs);
    if |rs| < |all| {
      assert TiledAt(file, all, |rs|);
    }
  }

  /** Batches of two equally long files whose first k headers agree begin with the same k records. */
  lemma {:induction false} SameHeaders(f: seq<byte>, g: seq<byte>, a: seq<Record>, b: seq<Record>, k: nat)
    requires IsBatch(f, a) && IsBatch(g, b) && |f| == |g| && k <= |a|
    requires forall i | 0 <= i < k :: HeaderOf(f, a[i]) == HeaderOf(g, a[i])
    ensures k <= |b| && a[..k] == b[..k]
  {
    hide *;
    if k > 0 {
      SameHeaders(f, g, a, b, k - 1);
      AgreeOnNext(f, g, a, b, k - 1);
      assert a[..k] == a[..k - 1] + [a[k - 1]] && b[..k] == b[..k - 1] + [b[k - 1]];
    }
  }

  lemma AgreeOnNext(f: seq<byte>, g: seq<byte>, a: seq<Record>, b: seq<Record>, k: nat)
    requires IsBatch(f, a) && IsBatch(g, b) && |f| == |g| && k < |a|
    requires HeaderOf(f, a[k]) == HeaderOf(g, a[k])
    requires k <= |b| && a[..k] == b[..k]
    ensures k < |b| && a[k] == b[k]
  {
    hide *;
    PrefixExtends(a, k);
    PrefixExtends(b, k);
    EndsInside(f, a, k);
    NextInBatch(f, a[..k], a);
    NextInBatch(g, a[..k], b);
    SameOffsetSameHeader(g, a[k], b[k]);
    AcceptedUnique(HeaderOf(f, a[k]), a[k], b[k]);
  }

  lemma PrefixExtends(rs: seq<Record>, k: nat)
    requires k <= |rs|
    ensures Extends(rs[..k], rs)
  {}

  lemma SameOffsetSameHeader(file: seq<byte>, a: Record, b: Record)
    requires a.payloadOffset == b.payloadOffset
    ensures HeaderOf(file, a) == HeaderOf(file, b)
  {}

  lemma EndsInside(file: seq<byte>, rs: seq<Record>, k: nat)
    requires IsBatch(file, rs) && k < |rs|
    ensures EndOf(rs[..k]) < |file|
  {
    hide AllAccepted, SameKindDisjoint, OptionsFirst, Complete;
    EndsGrow(file, rs, k, |rs|);
  }

  lemma AcceptedUnique(header: seq<byte>, a: Record, b: Record)
    requires Accepted(header, a) && Accepted(header, b) && a.payloadOffset == b.payloadOffset
    ensures a == b
  {
    hide Fields, Sealed;
    FieldsShape(header, a.payloadOffset);
  }

  lemma BatchUnique(file: seq<byte>, a: seq<Record>, b: seq<Record>)
    requires IsBatch(file, a) && IsBatch(file, b)
    ensures a == b
  {
    hide AllAccepted, HeaderOf, FullOptions, Disjoint;
    SameHeaders(file, file, a, b, |a|);
    SameHeaders(file, file, b, a, |b|);
    assert a == a[..|a|] && b == b[..|b|];
  }

  /** The file with one header replaced. */
  function WithHeader(file: seq<byte>, r: Record, header: seq<byte>): seq<byte>
    requires HEADER_SIZE <= r.payloadOffset <= |file|
  {
    file[..r.payloadOffset - HEADER_SIZE] + header + file[r.payloadOffset..]
  }

  /** Corrupting up to four consecutive bytes of one header leaves no batch at all. */
  lemma CorruptHeaderRejected(file: seq<byte>, rs: seq<Record>, k: nat, header: seq<byte>, other: seq<Record>)
    requires IsBatch(file, rs) && k < |rs|
    requires Burst(HeaderOf(file, rs[k]), header)
    ensures HEADER_SIZE <= rs[k].payloadOffset <= |file|
    ensures !IsBatch(WithHeader(file, rs[k], header), other)
  {
    hide Accepted, FullOptions, Disjoint, Sealed, Record.RunFlags;
    TiledStart(file, rs, k);
    if IsBatch(WithHeader(file, rs[k], header), other) {
      var bad := WithHeader(file, rs[k], header);
      assert |header| == HEADER_SIZE;
      forall i | 0 <= i < k ensures HeaderOf(file, rs[i]) == HeaderOf(bad, rs[i]) {
        HeaderUntouched(file, rs, i, k, header);
      }
      SameHeaders(file, bad, rs, other, k);
      EndsGrow(file, rs, k, |rs|);
      NextRecord(bad, rs[..k], other);
      assert TiledAt(file, rs, k);
      assert HeaderOf(bad, other[k]) == header;
      BrokenHeader(HeaderOf(file, rs[k]), rs[k], header, other[k]);
    }
  }

  lemma HeaderUntouched(file: seq<byte>, rs: seq<Record>, i: nat, k: nat, header: seq<byte>)
    requires Tiled(file, rs) && i < k < |rs| && |header| == HEADER_SIZE
    ensures HEADER_SIZE <= rs[k].payloadOffset <= |file|
    ensures HeaderOf(file, rs[i]) == HeaderOf(WithHeader(file, rs[k], header), rs[i])
  {
    hide Tiled;
    PayloadOrder(file, rs, i, k);
    KeptBefore(file, rs[k].payloadOffset - HEADER_SIZE, header, rs[k].payloadOffset, rs[i].payloadOffset - HEADER_SIZE, rs[i].payloadOffset);
  }

  /** A slice before the replaced part is unchanged. */
  lemma KeptBefore(file: seq<byte>, from: nat, part: seq<byte>, to: nat, a: nat, b: nat)
    requires a <= b <= from <= to <= |file| && |part| == to - from
    ensures |file[..from] + part + file[to..]| == |file| && (file[..from] + part + file[to..])[a..b] == file[a..b]
  {}

  /** A record ends before the header of a later one starts. */
  lemma PayloadOrder(file: seq<byte>, rs: seq<Record>, i: nat, k: nat)
    requires Tiled(file, rs) && i < k < |rs|
    ensures HEADER_SIZE <= rs[i].payloadOffset <= rs[k].payloadOffset - HEADER_SIZE && rs[k].payloadOffset <= |file|
  {
    TiledStart(file, rs, i);
    TiledStart(file, rs, k);
    if i + 1 < k {
      EndsGrow(file, rs, i + 1, k);
    }
    assert TiledAt(file, rs, k);
  }

  lemma TiledStart(file: seq<byte>, rs: seq<Record>, k: nat)
    requires Tiled(file, rs) && k < |rs|
    ensures HEADER_SIZE <= rs[k].payloadOffset <= rs[k].End() <= |file|
  {
    assert TiledAt(file, rs, k);
    if k > 0 {
      assert TiledAt(file, rs, k - 1);
    }
  }

  lemma BrokenHeader(header: seq<byte>, r: Record, received: seq<byte>, s: Record)
    requires Accepted(header, r) && Burst(header, received)
    ensures !Accepted(received, s)
  {
    hide Fields, Sealed, Supported;
    BurstBreaksSeal(header, received);
  }

  // ---- sizes ------------------------------------------------------------------------------------

  /** Nothing in the file is unaccounted for. */
  lemma {:induction false} ChainSize(file: seq<byte>, rs: seq<Record>)
    requires Tiled(file, rs)
    ensures EndOf(rs) == Total(rs) + HEADER_SIZE * |rs|
    decreases |rs|
  {
    if rs != [] {
      var front := rs[..|rs| - 1];
      assert TiledAt(file, rs, |rs| - 1);
      TiledPrefix(file, rs, |rs| - 1);
      ChainSize(file, front);
    }
  }

  lemma TiledPrefix(file: seq<byte>, rs: seq<Record>, k: nat)
    requires Tiled(file, rs) && k <= |rs|
    ensures Tiled(file, rs[..k])
  {
    forall i | 0 <= i < k ensures TiledAt(file, rs[..k], i) {
      assert TiledAt(file, rs, i);
    }
  }

  /** A file that holds a batch is its payloads plus one header per record. */
  lemma BatchFileSize(file: seq<byte>, rs: seq<Record>)
    requires IsBatch(file, rs)
    ensures |file| == Total(rs) + HEADER_SIZE * |rs|
  {
    hide AllAccepted;
    ChainSize(file, rs);
  }

  // ---- the parser -----------------------------------------------------------------------------------

  /** One round of the parser's loop: read, decode and check the record whose header is next. */
  method NextChecked(file: seq<byte>, fileSize: u32, offset: u32, records: seq<Record>)
    returns (r: Result<Record, ParseError>)
    requires fileSize == |file| && offset == EndOf(records) < fileSize && Chain(file, records)
    ensures r.Ok? ==>
      && Chain(file, records + [r.value]) && EndOf(records + [r.value]) == r.value.End() > offset
      && forall rs: seq<Record> | IsBatch(file, rs) && Extends(records, rs) :: Extends(records + [r.value], rs)
    ensures r.Err? ==> forall rs: seq<Record> | IsBatch(file, rs) :: !Extends(records, rs)
  {
    hide *;
    forall rs: seq<Record> | IsBatch(file, rs) && Extends(records, rs)
      ensures |records| < |rs| <= MAX_RECORDS && rs[|records|].payloadOffset == offset + HEADER_SIZE
      ensures rs[|records|].payloadOffset + rs[|records|].payloadSize <= fileSize
      ensures Accepted(HeaderOf(file, rs[|records|]), rs[|records|])
      ensures HeaderOf(file, rs[|records|]) == file[offset..offset + HEADER_SIZE]
    {
      NextInBatch(file, records, rs);
    }
    if |records| >= MAX_RECORDS {
      return Err(TooManyRecords);
    }
    if fileSize - offset < HEADER_SIZE {
      return Err(HeaderTruncated(|records|));
    }
    var header := file[offset..offset + HEADER_SIZE];
    var decoded := DecodeRecord(header, offset + HEADER_SIZE, |records|);
    if decoded.Err? {
      return decoded;
    }
    var record := decoded.value;
    forall rs: seq<Record> | IsBatch(file, rs) && Extends(records, rs) ensures rs[|records|] == record {
      AcceptedUnique(header, record, rs[|records|]);
    }
    if record.payloadOffset + record.payloadSize > fileSize {
      return Err(PayloadTruncated(|records|));
    }
    var i := 0;
    while i < |records|
      invariant 0 <= i <= |records|
      invariant forall j | 0 <= j < i :: records[j].kind == record.kind ==> Disjoint(records[j], record)
    {
      var previous := records[i];
      OverlapIsNotDisjoint(previous, record);
      if record.kind == previous.kind
        && RangesOverlap(record.address, record.payloadSize, previous.address, previous.payloadSize)
      {
        NotDisjoint(file, records, record, i);
        return Err(Overlap(|records|, i));
      }
      i := i + 1;
    }
    EndIsSum(record);
    if record.kind == OptionBytes {
      var full := GoodOptions(file, |records|, record);
      if !full {
        BadOptions(file, records, record);
        return Err(BadOptionBytes);
      }
    }
    assert HeaderOf(file, record) == header by { HeaderAt(file, record); }
    Append(file, records, record);
    forall rs: seq<Record> | IsBatch(file, rs) && Extends(records, rs) ensures Extends(records + [record], rs) {
      ExtendsByOne(records, record, rs);
    }
    return Ok(record);
  }

  lemma NextInBatch(file: seq<byte>, rs: seq<Record>, all: seq<Record>)
    requires IsBatch(file, all) && Extends(rs, all) && EndOf(rs) < |file|
    ensures |rs| < |all| <= MAX_RECORDS
    ensures all[|rs|].payloadOffset == EndOf(rs) + HEADER_SIZE <= |file|
    ensures all[|rs|].payloadOffset + all[|rs|].payloadSize <= |file|
    ensures 0 <= EndOf(rs)
    ensures Accepted(HeaderOf(file, all[|rs|]), all[|rs|])
    ensures HeaderOf(file, all[|rs|]) == file[EndOf(rs)..EndOf(rs) + HEADER_SIZE]
  {
    hide Accepted, Tiled, SameKindDisjoint, OptionsFirst, Complete;
    NextRecord(file, rs, all);
  }

  lemma EndIsSum(r: Record)
    ensures r.End() == r.payloadOffset + r.payloadSize
    ensures HEADER_SIZE == 256
  {}

  lemma HeaderAt(file: seq<byte>, r: Record)
    requires HEADER_SIZE <= r.payloadOffset <= |file|
    ensures HeaderOf(file, r) == file[r.payloadOffset - HEADER_SIZE..r.payloadOffset]
  {}

  lemma OverlapIsNotDisjoint(a: Record, b: Record)
    ensures RangesOverlap(b.address, b.payloadSize, a.address, a.payloadSize) <==> !Disjoint(a, b)
  {}

  lemma ExtendsByOne(rs: seq<Record>, r: Record, all: seq<Record>)
    requires Extends(rs, all) && |rs| < |all| && all[|rs|] == r
    ensures Extends(rs + [r], all)
  {
    assert all[..|rs| + 1] == all[..|rs|] + [all[|rs|]];
  }

  /** The full batch must start with one option record that opens with the RDP key. */
  method GoodOptions(file: seq<byte>, index: nat, record: Record) returns (full: bool)
    requires record.End() <= |file|
    ensures full <==> index == 0 && FullOptions(file, record)
  {
    full := index == 0 && record.address == OPTION_BASE && record.payloadSize == OPTION_SIZE
      && record.eraseOptions == 1
      && file[record.payloadOffset] == 0xa5 && file[record.payloadOffset + 1] == 0x5a;
  }

  lemma NotDisjoint(file: seq<byte>, records: seq<Record>, record: Record, i: nat)
    requires i < |records| && records[i].kind == record.kind && !Disjoint(records[i], record)
    ensures forall rs: seq<Record> | IsBatch(file, rs) && Extends(records, rs) && |records| < |rs| :: rs[|records|] != record
  {
    hide AllAccepted, OptionsFirst, Tiled, Complete, Disjoint;
    forall rs: seq<Record> | IsBatch(file, rs) && Extends(records, rs) && |records| < |rs|
      ensures rs[|records|] != record
    {
      assert rs[i] == records[i];
      assert rs[i].kind == rs[|records|].kind ==> Disjoint(rs[i], rs[|records|]);
    }
  }

  lemma BadOptions(file: seq<byte>, records: seq<Record>, record: Record)
    requires record.kind == OptionBytes && !(records == [] && FullOptions(file, record))
    ensures forall rs: seq<Record> | IsBatch(file, rs) && |records| < |rs| :: rs[|records|] != record
  {
    hide AllAccepted, SameKindDisjoint, Tiled, Complete, FullOptions;
  }

  /** Succeeds exactly on the files that hold a batch. */
  method Parse(file: seq<byte>) returns (r: Result<Manifest, ParseError>)
    ensures r.Ok? ==> IsManifest(file, r.value)
    ensures r.Err? ==> forall rs: seq<Record> :: !IsBatch(file, rs)
  {
    hide *;
    EmptyFile(file);
    NoRecords(file);
    if |file| == 0 || |file| > 0xffff_ffff {
      return Err(BadFileSize);
    }
    var fileSize: u32 := |file|;
    var records: seq<Record> := [];
    var payloadBytes: u32, flashRecordCount: u32 := 0, 0;
    var offset: u32 := 0;
    var hasMainProgram := false;

    while offset < fileSize
      invariant Chain(file, records) && offset == EndOf(records) <= fileSize
      invariant payloadBytes == Total(records)
      invariant flashRecordCount == CountFlash(records) <= |records| <= 16
      invariant hasMainProgram <==> HasMain(records)
      invariant forall rs: seq<Record> | IsBatch(file, rs) :: Extends(records, rs)
      decreases fileSize - offset
    {
      var next := NextChecked(file, fileSize, offset, records);
      if next.Err? {
        return Err(next.error);
      }
      var record := next.value;
      ghost var before := records;
      records := records + [record];
      AppendCounts(before, record);
      ChainFits(file, records);
      if record.kind == Flash {
        flashRecordCount := flashRecordCount + 1;
        hasMainProgram := hasMainProgram || record.address == FLASH_BASE;
      }
      EndIsSum(record);
      payloadBytes := payloadBytes + record.payloadSize;
      offset := record.payloadOffset + record.payloadSize;
    }

    OnlyBatch(file, records);
    BatchFromChain(file, records);
    var problem := CompletenessProblem(records, hasMainProgram);
    if problem.Err? {
      return Err(problem.error);
    }
    ChainFits(file, records);
    r := Ok(Manifest(fileSize, payloadBytes, |records|, flashRecordCount, records));
    ManifestOf(file, r.value);
  }

  /** What makes tiled records a complete batch. */
  ghost predicate Complete(rs: seq<Record>) {
    && 2 <= |rs|
    && rs[0].kind == OptionBytes
    && IsMain(rs[|rs| - 1])
    && (forall i | 0 <= i < |rs| - 1 :: rs[i].RunFlags() == 0)
    && rs[|rs| - 1].RunFlags() == RUN_RESET + RUN_STOP
  }

  /** The checks that follow the parser's loop. */
  method CompletenessProblem(records: seq<Record>, hasMainProgram: bool) returns (r: Result<bool, ParseError>)
    requires hasMainProgram <==> HasMain(records)
    ensures r.Ok? <==> Complete(records)
  {
    hide Record.RunFlags;
    if |records| < 2 || records[0].kind != OptionBytes || !hasMainProgram {
      return Err(Incomplete);
    }
    var last := records[|records| - 1];
    if last.kind != Flash || last.address != FLASH_BASE {
      return Err(LastNotMain);
    }
    var k := 0;
    while k + 1 < |records|
      invariant 0 <= k < |records|
      invariant forall j | 0 <= j < k :: records[j].RunFlags() == 0
    {
      if records[k].RunFlags() != 0 {
        return Err(EarlyRunFlags(k));
      }
      k := k + 1;
    }
    if last.RunFlags() != RUN_RESET + RUN_STOP {
      return Err(LastRunFlags);
    }
    return Ok(true);
  }

  lemma EmptyFile(file: seq<byte>)
    ensures |file| == 0 || |file| > 0xffff_ffff ==> forall rs: seq<Record> :: !IsBatch(file, rs)
  {
    hide Chain, Complete;
  }

  lemma NoRecords(file: seq<byte>)
    ensures Chain(file, []) && EndOf([]) == 0 && Total([]) == 0 && CountFlash([]) == 0 && !HasMain([])
    ensures forall rs: seq<Record> :: Extends([], rs)
  {}

  lemma ChainFits(file: seq<byte>, rs: seq<Record>)
    requires Chain(file, rs)
    ensures 0 <= EndOf(rs) <= |file| && CountFlash(rs) <= |rs| <= MAX_RECORDS == 16
    ensures Total(rs) <= |file|
  {
    hide AllAccepted, SameKindDisjoint, OptionsFirst;
    ChainSize(file, rs);
    CountFlashBound(rs);
    if rs != [] {
      TiledStart(file, rs, |rs| - 1);
    }
  }

  lemma {:induction false} CountFlashBound(rs: seq<Record>)
    ensures CountFlash(rs) <= |rs|
  {
    if rs != [] {
      CountFlashBound(rs[..|rs| - 1]);
    }
  }

  lemma OnlyBatch(file: seq<byte>, rs: seq<Record>)
    requires EndOf(rs) == |file|
    ensures forall all: seq<Record> | IsBatch(file, all) && Extends(rs, all) :: all == rs
  {
    hide AllAccepted, SameKindDisjoint, OptionsFirst, Complete;
    forall all: seq<Record> | IsBatch(file, all) && Extends(rs, all) ensures all == rs {
      assert EndBefore(all, |rs|) == EndOf(rs);
      if |rs| < |all| {
        EndsGrow(file, all, |rs|, |all|);
      }
      assert all[..|all|] == all;
    }
  }

  lemma ManifestOf(file: seq<byte>, m: Manifest)
    requires IsBatch(file, m.records) && m.fileSize == |file| && m.recordCount == |m.records|
    requires m.flashRecordCount == CountFlash(m.records) && m.payloadBytes == Total(m.records)
    ensures IsManifest(file, m)
  {
    hide IsBatch;
  }

  lemma BatchFromChain(file: seq<byte>, rs: seq<Record>)
    requires Chain(file, rs) && EndOf(rs) == |file| && 0 < |file| < 0x1_0000_0000
    ensures IsBatch(file, rs) <==> Complete(rs)
  {
    hide Chain, Complete;
  }

  predicate HasMain(rs: seq<Record>) { exists i :: 0 <= i < |rs| && IsMain(rs[i]) }

  lemma AppendCounts(rs: seq<Record>, r: Record)
    ensures Total(rs + [r]) == Total(rs) + r.payloadSize
    ensures CountFlash(rs + [r]) == CountFlash(rs) + (if r.kind == Flash then 1 else 0)
    ensures HasMain(rs + [r]) <==> HasMain(rs) || (r.kind == Flash && r.address == FLASH_BASE)
  {
    var all := rs + [r];
    assert all[..|rs|] == rs;
    if HasMain(rs) {
      var i :| 0 <= i < |rs| && IsMain(rs[i]);
      assert IsMain(all[i]);
    }
    if IsMain(r) {
      assert IsMain(all[|rs|]);
    }
  }

  predicate IsMain(r: Record) { r.kind == Flash && r.address == FLASH_BASE }

  lemma Append(file: seq<byte>, rs: seq<Record>, r: Record)
    requires Chain(file, rs) && |rs| < MAX_RECORDS
    requires r.payloadOffset == EndOf(rs) + HEADER_SIZE && r.End() <= |file|
    requires Accepted(HeaderOf(file, r), r)
    requires forall j | 0 <= j < |rs| :: rs[j].kind == r.kind ==> Disjoint(rs[j], r)
    requires r.kind == OptionBytes ==> rs == [] && FullOptions(file, r)
    ensures Chain(file, rs + [r])
    ensures EndOf(rs + [r]) == r.End()
  {
    hide Accepted, HeaderOf, FullOptions, Disjoint;
    var all := rs + [r];
    assert all[..|rs|] == rs;
    assert Tiled(file, all) by {
      forall i | 0 <= i < |all| ensures TiledAt(file, all, i) {
        assert i < |rs| ==> TiledAt(file, rs, i);
      }
    }
  }
}
