/** Writing batches: a plan of what goes where determines a file that the parser accepts
    and reads back as exactly that plan. */
module BatchEncoding {
  import opened Bytes
  import opened Crc32
  import opened BatchFormat

  datatype Plan = Plan(address: u32, erase: bool, runOptions: u32, payload: seq<byte>) {
    predicate Fits() { |payload| < 0x1_0000_0000 }

    function Kind(): Kind { if address >= OPTION_BASE then OptionBytes else Flash }
  }

  /** Words laid out low byte first. */
  function Layout(ws: seq<Word>): (r: seq<byte>)
    ensures |r| == 4 * |ws|
  {
    if ws == [] then [] else LowBytes(ws[0], 4) + Layout(ws[1..])
  }

  lemma {:induction false} WordInLayout(ws: seq<Word>, i: nat, tail: seq<byte>)
    requires i < |ws|
    ensures WordAt(Layout(ws) + tail, 4 * i) == ws[i]
  {
    var rest := Layout(ws[1..]) + tail;
    assert Layout(ws) + tail == LowBytes(ws[0], 4) + rest;
    if i > 0 {
      WordInLayout(ws[1..], i - 1, tail);
      assert (LowBytes(ws[0], 4) + rest)[4 * i..4 * i + 4] == rest[4 * i - 4..4 * i];
      WordOfSlice(LowBytes(ws[0], 4) + rest, 4 * i);
      WordOfSlice(rest, 4 * i - 4);
    }
  }

  lemma WordOfSlice(bytes: seq<byte>, at: nat)
    requires at + 4 <= |bytes|
    ensures WordAt(bytes, at) == WordAt(bytes[at..at + 4], 0)
  {}

  /** The 63 header words before the checksum. */
  function HeaderWords(p: Plan): (ws: seq<Word>)
    requires p.Fits()
    ensures |ws| == 63
  {
    [ToWord(DEVICE_ID), ToWord(|p.payload|), ToWord(p.address), ToWord(0), ToWord(if p.erase then 1 else 0), ToWord(1),
     ToWord(p.runOptions), ToWord(0), ToWord(0)] + seq(53, i => ZERO_WORD) + [ToWord(1)]
  }

  function Body(p: Plan): (r: seq<byte>)
    requires p.Fits()
    ensures |r| == HEADER_SIZE - 4
  {
    Layout(HeaderWords(p))
  }

  function Header(p: Plan): (r: seq<byte>)
    requires p.Fits()
    ensures |r| == HEADER_SIZE
  {
    Body(p) + ChecksumBytes(Checksum(Body(p)))
  }

  function RecordOf(p: Plan, payloadOffset: u32): Record
    requires p.Fits()
  {
    Record(DEVICE_ID, |p.payload|, p.address, 0, if p.erase then 1 else 0, 1, p.runOptions, 0, 0, 1,
           Checksum(Body(p)), payloadOffset, p.Kind())
  }

  lemma HeaderFields(p: Plan, payloadOffset: u32)
    requires p.Fits()
    ensures Sealed(Header(p)) && Fields(Header(p), payloadOffset, p.Kind()) == RecordOf(p, payloadOffset)
  {
    hide Checksum, Field, ToWord, FromWord, Layout;
    var ws, tail := HeaderWords(p), ChecksumBytes(Checksum(Body(p)));
    forall i: nat | i < 63 ensures ReadLe32(Header(p), 4 * i) == FromWord(ws[i]) {
      WordInLayout(ws, i, tail);
    }
    forall x: u32 ensures FromWord(ToWord(x)) == x {
      WordRoundTrip(x);
    }
    assert Header(p)[..HEADER_SIZE - 4] == Body(p) && Header(p)[HEADER_SIZE - 4..] == tail;
    FieldOfChecksum(Checksum(Body(p)));
    assert ws[0] == ToWord(DEVICE_ID) && ws[1] == ToWord(|p.payload|) && ws[2] == ToWord(p.address) && ws[3] == ToWord(0);
    assert ws[4] == ToWord(if p.erase then 1 else 0) && ws[5] == ToWord(1) && ws[6] == ToWord(p.runOptions);
    assert ws[7] == ToWord(0) && ws[8] == ToWord(0) && ws[62] == ToWord(1);
    assert ReadLe32(Header(p), 4 * 0) == DEVICE_ID && ReadLe32(Header(p), 4 * 62) == 1;
  }

  // ---- whole files -----------------------------------------------------------------------------

  predicate AllFit(ps: seq<Plan>) { forall i | 0 <= i < |ps| :: ps[i].Fits() }

  function Encode(ps: seq<Plan>): seq<byte>
    requires AllFit(ps)
  {
    if ps == [] then [] else Encode(ps[..|ps| - 1]) + Header(ps[|ps| - 1]) + ps[|ps| - 1].payload
  }

  /** The records of the encoded file; the file must be addressable with 32 bits. */
  function Records(ps: seq<Plan>): (rs: seq<Record>)
    requires AllFit(ps) && |Encode(ps)| < 0x1_0000_0000
    ensures |rs| == |ps|
  {
    if ps == [] then []
    else Records(ps[..|ps| - 1]) + [RecordOf(ps[|ps| - 1], |Encode(ps[..|ps| - 1])| + HEADER_SIZE)]
  }

  /** The plan asks for something the format can carry. */
  ghost predicate Encodable(ps: seq<Plan>) {
    && AllFit(ps) && |ps| <= MAX_RECORDS && |Encode(ps)| < 0x1_0000_0000
    && (forall i | 0 <= i < |ps| :: Supported(RecordOf(ps[i], 0)))
    && SameKindDisjoint(Records(ps))
    && (forall i | 0 <= i < |ps| && ps[i].Kind() == OptionBytes :: i == 0 && FullPage(ps[i]))
  }

  predicate FullPage(p: Plan) {
    p.address == OPTION_BASE && |p.payload| == OPTION_SIZE && p.erase && p.payload[0] == 0xa5 && p.payload[1] == 0x5a
  }

  /** What has been read so far does not depend on what follows in the file. */
  lemma ChainMore(file: seq<byte>, more: seq<byte>, rs: seq<Record>)
    requires Chain(file, rs)
    ensures Chain(file + more, rs)
  {
    hide Accepted;
    forall i | 0 <= i < |rs|
      ensures TiledAt(file + more, rs, i) && HeaderOf(file + more, rs[i]) == HeaderOf(file, rs[i])
      ensures FullOptions(file, rs[i]) ==> FullOptions(file + more, rs[i])
    {
      assert TiledAt(file, rs, i);
      TiledStart(file, rs, i);
    }
  }

  lemma PayloadMore(file: seq<byte>, more: seq<byte>, r: Record)
    requires r.End() <= |file|
    ensures PayloadOf(file + more, r) == PayloadOf(file, r)
  {}

  lemma FrontRecords(ps: seq<Plan>)
    requires AllFit(ps) && ps != [] && |Encode(ps)| < 0x1_0000_0000
    ensures |Encode(ps[..|ps| - 1])| < 0x1_0000_0000
    ensures Records(ps)[..|ps| - 1] == Records(ps[..|ps| - 1])
  {
    hide Header, RecordOf;
  }

  lemma FrontEncodable(ps: seq<Plan>)
    requires Encodable(ps) && ps != []
    ensures Encodable(ps[..|ps| - 1])
  {
    hide Encode, Header, RecordOf, Disjoint, FullPage, Supported, Records;
    var front := ps[..|ps| - 1];
    Shorter(ps);
    FrontRecords(ps);
    var all, rs := Records(ps), Records(front);
    assert forall i | 0 <= i < |rs| :: rs[i] == all[i];
  }

  lemma Shorter(ps: seq<Plan>)
    requires AllFit(ps) && ps != []
    ensures |Encode(ps[..|ps| - 1])| <= |Encode(ps)|
  {}

  /** The next record fits right behind the ones before it. */
  lemma NextEncoded(file: seq<byte>, rs: seq<Record>, p: Plan)
    requires p.Fits() && Chain(file, rs) && EndOf(rs) == |file| && |rs| < MAX_RECORDS
    requires |file| + HEADER_SIZE + |p.payload| < 0x1_0000_0000 && Supported(RecordOf(p, 0))
    requires forall j | 0 <= j < |rs| :: rs[j].kind == p.Kind() ==> Disjoint(rs[j], RecordOf(p, |file| + HEADER_SIZE))
    requires p.Kind() == OptionBytes ==> rs == [] && FullPage(p)
    ensures var r := RecordOf(p, |file| + HEADER_SIZE);
      && Chain(file + Header(p) + p.payload, rs + [r])
      && EndOf(rs + [r]) == |file + Header(p) + p.payload|
      && PayloadOf(file + Header(p) + p.payload, r) == p.payload
  {
    hide Chain, Checksum, Body, Header, Disjoint, Fields, Sealed, Field;
    var r, whole := RecordOf(p, |file| + HEADER_SIZE), file + Header(p) + p.payload;
    assert whole == file + (Header(p) + p.payload);
    ChainMore(file, Header(p) + p.payload, rs);
    HeaderFields(p, |file| + HEADER_SIZE);
    assert HeaderOf(whole, r) == Header(p);
    assert PayloadOf(whole, r) == p.payload;
    Append(whole, rs, r);
  }

  /** The file holds a chain of records that are the plan's entries, payloads included. */
  ghost predicate Carries(file: seq<byte>, rs: seq<Record>, ps: seq<Plan>)
    requires AllFit(ps)
  {
    && Chain(file, rs) && EndOf(rs) == |file| && |rs| == |ps|
    && forall i | 0 <= i < |ps| :: CarriesAt(file, rs[i], ps[i])
  }

  ghost predicate CarriesAt(file: seq<byte>, r: Record, p: Plan)
    requires p.Fits()
  {
    r == RecordOf(p, r.payloadOffset) && r.End() <= |file| && PayloadOf(file, r) == p.payload
  }

  lemma CarriesNext(file: seq<byte>, rs: seq<Record>, ps: seq<Plan>, p: Plan)
    requires AllFit(ps) && Carries(file, rs, ps) && p.Fits() && |rs| < MAX_RECORDS
    requires |file| + HEADER_SIZE + |p.payload| < 0x1_0000_0000 && Supported(RecordOf(p, 0))
    requires forall j | 0 <= j < |rs| :: rs[j].kind == p.Kind() ==> Disjoint(rs[j], RecordOf(p, |file| + HEADER_SIZE))
    requires p.Kind() == OptionBytes ==> rs == [] && FullPage(p)
    ensures Carries(file + Header(p) + p.payload, rs + [RecordOf(p, |file| + HEADER_SIZE)], ps + [p])
  {
    hide Chain, Checksum, Body, Header, Disjoint, Supported, PayloadOf, FullPage, RecordOf;
    NextEncoded(file, rs, p);
    var r, whole := RecordOf(p, |file| + HEADER_SIZE), file + Header(p) + p.payload;
    assert whole == file + (Header(p) + p.payload);
    forall i | 0 <= i < |rs| ensures CarriesAt(whole, rs[i], ps[i]) {
      PayloadMore(file, Header(p) + p.payload, rs[i]);
    }
    assert CarriesAt(whole, r, p) by { NewRecord(p, |file| + HEADER_SIZE); }
  }

  lemma NewRecord(p: Plan, at: u32)
    requires p.Fits()
    ensures RecordOf(p, at).payloadOffset == at && RecordOf(p, at).End() == at + |p.payload|
  {}

  lemma {:induction false} EncodedCarries(ps: seq<Plan>)
    requires Encodable(ps)
    ensures AllFit(ps) && |Encode(ps)| < 0x1_0000_0000
    ensures Carries(Encode(ps), Records(ps), ps)
  {
    hide *;
    EncodableFits(ps);
    if ps == [] {
      NothingCarried(ps);
    } else {
      FrontEncodable(ps);
      EncodedCarries(ps[..|ps| - 1]);
      LastFits(ps);
      CarriesNext(Encode(ps[..|ps| - 1]), Records(ps[..|ps| - 1]), ps[..|ps| - 1], ps[|ps| - 1]);
      assert ps == ps[..|ps| - 1] + [ps[|ps| - 1]];
    }
  }

  lemma NothingCarried(ps: seq<Plan>)
    requires ps == []
    ensures Carries(Encode(ps), Records(ps), ps)
  {
    NoRecords([]);
  }

  lemma EncodableFits(ps: seq<Plan>)
    requires Encodable(ps)
    ensures AllFit(ps) && |Encode(ps)| < 0x1_0000_0000
  {}

  lemma LastFits(ps: seq<Plan>)
    requires Encodable(ps) && ps != []
    ensures var front, p := ps[..|ps| - 1], ps[|ps| - 1];
      && p.Fits() && AllFit(front) && |Encode(front)| + HEADER_SIZE + |p.payload| < 0x1_0000_0000
      && Encode(ps) == Encode(front) + Header(p) + p.payload && Supported(RecordOf(p, 0)) && |front| < MAX_RECORDS
      && Records(ps) == Records(front) + [RecordOf(p, |Encode(front)| + HEADER_SIZE)]
      && (forall j | 0 <= j < |Records(front)| ::
           Records(front)[j].kind == p.Kind() ==> Disjoint(Records(front)[j], RecordOf(p, |Encode(front)| + HEADER_SIZE)))
      && (p.Kind() == OptionBytes ==> Records(front) == [] && FullPage(p))
  {
    hide Checksum, Body, Header, Disjoint, Supported, FullPage;
    var front, rs := ps[..|ps| - 1], Records(ps);
    FrontRecords(ps);
    forall j | 0 <= j < |Records(front)|
      ensures Records(front)[j].kind == ps[|ps| - 1].Kind() ==> Disjoint(Records(front)[j], rs[|ps| - 1])
    {
      assert Records(front)[j] == rs[j];
    }
  }

  /** A complete plan makes a batch, and the parser can read nothing else from it. */
  lemma EncodedIsBatch(ps: seq<Plan>)
    requires Encodable(ps) && Complete(Records(ps))
    ensures IsBatch(Encode(ps), Records(ps)) && Carries(Encode(ps), Records(ps), ps)
    ensures forall rs: seq<Record> | IsBatch(Encode(ps), rs) :: rs == Records(ps)
  {
    EncodableFits(ps);
    assert |ps| >= 2;
    EncodedCarries(ps);
    NotEmpty(ps);
    hide Complete, Chain, Encode, Records, Encodable;
    BatchFromChain(Encode(ps), Records(ps));
    forall rs: seq<Record> | IsBatch(Encode(ps), rs) ensures rs == Records(ps) {
      BatchUnique(Encode(ps), rs, Records(ps));
    }
  }

  lemma NotEmpty(ps: seq<Plan>)
    requires AllFit(ps) && ps != []
    ensures |Encode(ps)| > 0
  {}

  lemma {:induction false} RecordsShape(ps: seq<Plan>, i: nat)
    requires AllFit(ps) && |Encode(ps)| < 0x1_0000_0000 && i < |ps|
    ensures Records(ps)[i] == RecordOf(ps[i], Records(ps)[i].payloadOffset)
  {
    hide Encode, Header, Body, Checksum;
    FrontRecords(ps);
    if i < |ps| - 1 {
      RecordsShape(ps[..|ps| - 1], i);
      assert Records(ps[..|ps| - 1])[i] == Records(ps)[i];
    }
  }
}
