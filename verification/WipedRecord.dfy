/** A file the parser accepts whose update succeeds in every step and yet leaves one record
    erased: a record without erase in the tail of a sector, then a record that erases it. */
module WipedRecord {
  import opened Bytes
  import opened BatchFormat
  import opened BatchEncoding
  import opened FlashDevice
  import opened FlashSteps
  import opened NorMemory
  import opened BatchEffects

  /** Four bytes in the tail of sector one, then an erase of that sector, then the program. */
  predicate Wiping(ps: seq<Plan>) {
    && |ps| == 4 && FullPage(ps[0]) && ps[0].runOptions == 0
    && Small(ps[1], 0x8000_1800, false, 0) && ps[1].payload[0] == 0
    && Small(ps[2], 0x8000_1000, true, 0)
    && Small(ps[3], FLASH_BASE, true, RUN_RESET + RUN_STOP)
  }

  predicate Small(p: Plan, address: u32, erase: bool, runOptions: u32) {
    p.address == address && p.erase == erase && p.runOptions == runOptions && |p.payload| == 4
  }

  /** Such a plan exists. */
  function WipingPlan(): (ps: seq<Plan>)
    ensures Wiping(ps)
  {
    [Plan(OPTION_BASE, true, 0, [0xa5, 0x5a] + seq(126, i => ERASED)), Plan(0x8000_1800, false, 0, [0, 0, 0, 0]),
     Plan(0x8000_1000, true, 0, [0, 0, 0, 0]), Plan(FLASH_BASE, true, 6, [0, 0, 0, 0])]
  }

  lemma SizeOf(ps: seq<Plan>, n: nat)
    requires AllFit(ps) && n <= |ps|
    ensures n == 0 ==> |Encode(ps[..n])| == 0
    ensures n > 0 ==> |Encode(ps[..n])| == |Encode(ps[..n - 1])| + HEADER_SIZE + |ps[n - 1].payload|
  {
    hide Header;
    if n > 0 {
      assert ps[..n][..n - 1] == ps[..n - 1];
    }
  }

  lemma WipingSize(ps: seq<Plan>)
    requires Wiping(ps)
    ensures AllFit(ps) && |Encode(ps)| == 4 * HEADER_SIZE + OPTION_SIZE + 12
  {
    hide Encode;
    assert ps[..4] == ps;
    SizeOf(ps, 4);
    SizeOf(ps, 3);
    SizeOf(ps, 2);
    SizeOf(ps, 1);
    SizeOf(ps, 0);
  }

  lemma PlanRecord(p: Plan, at: u32)
    requires p.Fits()
    ensures RecordOf(p, at).address == p.address && RecordOf(p, at).payloadSize == |p.payload|
    ensures RecordOf(p, at).runOptions == p.runOptions && RecordOf(p, at).eraseOptions == (if p.erase then 1 else 0)
    ensures RecordOf(p, at).kind == p.Kind()
    ensures FullPage(p) && p.runOptions == 0 ==> Supported(RecordOf(p, at)) && p.Kind() == OptionBytes
    ensures (p.runOptions == 0 || p.runOptions == 6) && 0 < |p.payload| && FLASH_BASE <= p.address
        && p.address + |p.payload| <= FLASH_BASE + FLASH_SIZE && p.address % 4 == 0 && (p.erase ==> p.address % SECTOR_SIZE == 0)
      ==> Supported(RecordOf(p, at)) && p.Kind() == Flash
  {
    hide Body;
  }

  /** The four records as the parser will see them. */
  lemma WipingRecords(ps: seq<Plan>)
    requires Wiping(ps)
    ensures AllFit(ps) && |Encode(ps)| < 0x1_0000_0000
    ensures var rs := Records(ps);
      && FourRecords(rs) && rs[3].address == FLASH_BASE && rs[3].payloadSize == 4
      && rs[0].runOptions == rs[1].runOptions == rs[2].runOptions == 0 && rs[3].runOptions == 6
    ensures forall i | 0 <= i < 4 :: Supported(RecordOf(ps[i], 0)) && (ps[i].Kind() == OptionBytes <==> i == 0)
  {
    hide Encode, RecordOf, Supported, Records;
    WipingSize(ps);
    forall i | 0 <= i < 4 ensures Records(ps)[i] == RecordOf(ps[i], Records(ps)[i].payloadOffset) {
      RecordsShape(ps, i);
    }
    PlanRecord(ps[0], Records(ps)[0].payloadOffset);
    PlanRecord(ps[1], Records(ps)[1].payloadOffset);
    PlanRecord(ps[2], Records(ps)[2].payloadOffset);
    PlanRecord(ps[3], Records(ps)[3].payloadOffset);
    PlanRecord(ps[0], 0);
    PlanRecord(ps[1], 0);
    PlanRecord(ps[2], 0);
    PlanRecord(ps[3], 0);
  }

  lemma WipingEncodable(ps: seq<Plan>)
    requires Wiping(ps)
    ensures Encodable(ps)
  {
    hide Encode, RecordOf, Supported, Records, Small;
    WipingRecords(ps);
  }

  lemma WipingComplete(ps: seq<Plan>)
    requires Wiping(ps)
    ensures AllFit(ps) && |Encode(ps)| < 0x1_0000_0000 && Complete(Records(ps))
  {
    hide Encode, RecordOf, Supported, Records, Small, FullPage;
    WipingRecords(ps);
  }

  lemma WipingIsBatch(ps: seq<Plan>)
    requires Wiping(ps)
    ensures AllFit(ps) && |Encode(ps)| < 0x1_0000_0000
    ensures IsBatch(Encode(ps), Records(ps)) && Carries(Encode(ps), Records(ps), ps)
  {
    hide *;
    WipingEncodable(ps);
    WipingComplete(ps);
    EncodedIsBatch(ps);
  }

  /** The file is accepted, every record verifies at its turn on a target whose tail cells
      start out erased, and at the end the second record is gone. */
  lemma RecordWiped(ps: seq<Plan>, m: Memory)
    requires Wiping(ps) && m.Shaped() && forall i | 0x1800 <= i < 0x1804 :: m.flash[i] == ERASED
    ensures AllFit(ps) && |Encode(ps)| < 0x1_0000_0000
    ensures IsBatch(Encode(ps), Records(ps)) && AllProgrammable(Encode(ps), Records(ps))
    ensures VerifiesThroughout(Encode(ps), m, Records(ps))
    ensures !Retained(Encode(ps), Replay(Encode(ps), m, Records(ps)), Records(ps)[1])
  {
    hide *;
    WipingIsBatch(ps);
    BatchProgrammable(Encode(ps), Records(ps));
    WipingRecords(ps);
    TailPayload(ps);
    var image, rs := Encode(ps), Records(ps);
    WipingVerifies(image, m, rs);
    WipingHarms(image, rs);
    Wiped(image, m, rs);
  }

  lemma TailPayload(ps: seq<Plan>)
    requires Wiping(ps) && AllFit(ps) && |Encode(ps)| < 0x1_0000_0000 && Carries(Encode(ps), Records(ps), ps)
    ensures |PayloadOf(Encode(ps), Records(ps)[1])| == 4 && PayloadOf(Encode(ps), Records(ps)[1])[0] == 0
  {
    hide Encode, Records, RecordOf, Chain, PayloadOf;
    assert CarriesAt(Encode(ps), Records(ps)[1], ps[1]);
  }

  predicate FourRecords(rs: seq<Record>) {
    && |rs| == 4 && rs[0].kind == OptionBytes && rs[1].kind == rs[2].kind == rs[3].kind == Flash
    && rs[1].address == 0x8000_1800 && rs[2].address == 0x8000_1000 && rs[1].payloadSize == rs[2].payloadSize == 4
    && rs[0].eraseOptions == 1 && rs[1].eraseOptions == 0 && rs[2].eraseOptions == rs[3].eraseOptions == 1
  }

  lemma WipingVerifies(image: seq<byte>, m: Memory, rs: seq<Record>)
    requires BatchRecords(image, rs) && FourRecords(rs) && m.Shaped()
    requires forall i | 0x1800 <= i < 0x1804 :: m.flash[i] == ERASED
    ensures VerifiesThroughout(image, m, rs)
  {
    hide Programmable, Retained, RecordEffect, Replay, Disjoint;
    forall k | 0 <= k < 4 ensures Retained(image, Replay(image, m, rs[..k + 1]), rs[k]) {
      ReplayStep(image, m, rs, k);
      if k == 1 {
        ReplayStep(image, m, rs, 0);
        TailVerifies(image, m, Replay(image, m, rs[..1]), rs[0], rs[1]);
      } else {
        ErasedRecordRetained(image, Replay(image, m, rs[..k]), rs[k]);
      }
    }
  }

  lemma ReplayStep(image: seq<byte>, m: Memory, rs: seq<Record>, k: nat)
    requires AllProgrammable(image, rs) && m.Shaped() && k < |rs|
    ensures Programmable(image, rs[k]) && Replay(image, m, rs[..0]) == m
    ensures Replay(image, m, rs[..k + 1]) == RecordEffect(image, Replay(image, m, rs[..k]), rs[k])
  {
    hide Programmable, RecordEffect;
    assert rs[..k + 1][..k] == rs[..k];
  }

  lemma TailVerifies(image: seq<byte>, m: Memory, m1: Memory, options: Record, tail: Record)
    requires Programmable(image, options) && Programmable(image, tail) && m.Shaped() && options.kind == OptionBytes
    requires m1 == RecordEffect(image, m, options) && m1.Shaped()
    requires tail.kind == Flash && tail.eraseOptions == 0 && tail.address == 0x8000_1800 && tail.payloadSize == 4
    requires forall i | 0x1800 <= i < 0x1804 :: m.flash[i] == ERASED
    ensures Retained(image, RecordEffect(image, m1, tail), tail)
  {
    assert m1.flash == m.flash;
    hide RecordEffect, Retained, Programmable;
    UnerasedRetainedIff(image, m1, tail);
    ProgrammableBounds(image, tail);
    forall x | 0 <= x < 4
      ensures m1.flash[0x1800 + x] | PayloadOf(image, tail)[x] == m1.flash[0x1800 + x]
    {
      OnesStay(PayloadOf(image, tail)[x]);
    }
  }

  lemma OnesStay(b: byte)
    ensures ERASED | b == ERASED
  {}

  lemma WipingHarms(image: seq<byte>, rs: seq<Record>)
    requires FourRecords(rs) && |PayloadOf(image, rs[1])| == 4 && PayloadOf(image, rs[1])[0] == 0
    ensures !Harmless(image, rs[1], rs[2])
  {
    hide PayloadOf;
  }

  lemma Wiped(image: seq<byte>, m: Memory, rs: seq<Record>)
    requires BatchRecords(image, rs) && FourRecords(rs) && m.Shaped()
    requires VerifiesThroughout(image, m, rs) && !Harmless(image, rs[1], rs[2])
    ensures !Retained(image, Replay(image, m, rs), rs[1])
  {
    hide Programmable, Retained, Replay, Disjoint, Harmless;
    TurnRetained(image, m, rs, 1);
    RetainedIff(image, m, rs, 1);
  }
}
