/** CRC-32 as the firmware computes it: the reflected polynomial of section 3.2.9
    of IEEE 802.3, initial value and final complement all ones. */
module Crc32 {
  import opened Algebra
  import opened Bytes

  const POLY: bv32 := 0xedb8_8320
  const ALL_ONES: bv32 := 0xffff_ffff

  // ---- one bit of the shift register -------------------------------------------

  function Xor(a: bv32, b: bv32): bv32 { a ^ b }

  function Half(x: bv32): bv32 { x >> 1 }

  predicate Odd(x: bv32) { x & 1 == 1 }

  function Feedback(x: bv32): bv32 { if Odd(x) then POLY else 0 }

  function Step(x: bv32): bv32 { Half(x) ^ Feedback(x) }

  lemma XorExchange(a: bv32, b: bv32, p: bv32, q: bv32)
    ensures Xor(Xor(a, b), Xor(p, q)) == Xor(Xor(a, p), Xor(b, q))
  {
    calc {
      Xor(Xor(a, b), Xor(p, q));
      Xor(a ^ b, p ^ q);
      (a ^ b) ^ (p ^ q);
      (a ^ p) ^ (b ^ q);
      Xor(a ^ p, b ^ q);
      Xor(Xor(a, p), Xor(b, q));
    }
  }

  lemma HalfHom(a: bv32, b: bv32)
    ensures HomAt(Half, Xor, a, b)
  {}

  lemma FeedbackHom(a: bv32, b: bv32)
    ensures HomAt(Feedback, Xor, a, b)
  {
    assert Odd(a ^ b) == (Odd(a) != Odd(b));
  }

  lemma StepIsSum(a: bv32)
    ensures SumAt(Half, Feedback, Step, Xor, a)
  {}

  /** The register step is linear over exclusive or ... */
  lemma StepHom(a: bv32, b: bv32)
    ensures HomAt(Step, Xor, a, b)
  {
    hide *;
    HalfHom(a, b);
    FeedbackHom(a, b);
    XorExchange(Half(a), Half(b), Feedback(a), Feedback(b));
    StepIsSum(a);
    StepIsSum(b);
    StepIsSum(Xor(a, b));
    SumHom(Half, Feedback, Step, Xor, a, b);
  }

  /** ... and loses no information. */
  lemma StepInjective(x: bv32, y: bv32)
    requires Step(x) == Step(y)
    ensures x == y
  {}

  function Steps(n: nat, x: bv32): bv32 { Iterate(Step, n, x) }

  lemma StepsXor(n: nat, x: bv32, y: bv32)
    ensures Steps(n, Xor(x, y)) == Xor(Steps(n, x), Steps(n, y))
  {
    forall a, b ensures HomAt(Step, Xor, a, b) { StepHom(a, b); }
    IterateHom(Step, Xor, n, x, y);
  }

  lemma StepsInjective(n: nat, x: bv32, y: bv32)
    requires Steps(n, x) == Steps(n, y)
    ensures x == y
  {
    forall a, b | Step(a) == Step(b) ensures a == b { StepInjective(a, b); }
    IterateInjective(Step, n, x, y);
  }

  // Shifting a value up by whole bits and stepping it back down is the identity,
  // as long as no set bit leaves at the top.

  lemma OutOne(b: bv32)
    requires b < 0x8000_0000
    ensures Steps(1, b << 1) == b
  {
    assert Step(b << 1) == b;
    assert Iterate(Step, 1, b << 1) == Iterate(Step, 0, Step(b << 1));
  }

  lemma Twice(n: nat, x: bv32, y: bv32, z: bv32)
    requires Steps(n, x) == y && Steps(n, y) == z
    ensures Steps(n + n, x) == z
  {
    IterateAdd(Step, n, n, x);
  }

  lemma ShiftSplit(b: bv32)
    ensures (b << 1) << 1 == b << 2 && (b << 2) << 2 == b << 4 && (b << 4) << 4 == b << 8
    ensures b < 0x4000_0000 ==> b << 1 < 0x8000_0000
    ensures b < 0x1000_0000 ==> b << 2 < 0x4000_0000
    ensures b < 0x100_0000 ==> b << 4 < 0x1000_0000
  {}

  lemma OutTwo(b: bv32)
    requires b < 0x4000_0000
    ensures Steps(2, b << 2) == b
  {
    ShiftSplit(b);
    OutOne(b << 1);
    OutOne(b);
    Twice(1, b << 2, b << 1, b);
  }

  lemma OutFour(b: bv32)
    requires b < 0x1000_0000
    ensures Steps(4, b << 4) == b
  {
    ShiftSplit(b);
    OutTwo(b << 2);
    OutTwo(b);
    Twice(2, b << 4, b << 2, b);
  }

  lemma OutEight(b: bv32)
    requires b < 0x100_0000
    ensures Steps(8, b << 8) == b
  {
    ShiftSplit(b);
    OutFour(b << 4);
    OutFour(b);
    Twice(4, b << 8, b << 4, b);
  }

  // ---- whole messages ---------------------------------------------------------------

  /** The register after one message byte. */
  function Feed(x: bv32, b: byte): bv32 { Steps(8, Xor(x, Wide(b))) }

  function Wide(b: byte): bv32 { b as bv32 }

  /** The register after a message. */
  function Run(x: bv32, data: seq<byte>): bv32
    decreases |data|
  {
    if data == [] then x else Run(Feed(x, data[0]), data[1..])
  }

  function Not(x: bv32): bv32 { !x }

  /** What the firmware's routine returns for a starting CRC and a message. */
  function Update(crc: bv32, data: seq<byte>): bv32 { Not(Run(Not(crc), data)) }

  function Checksum(data: seq<byte>): bv32 { Update(0, data) }

  lemma {:induction false} RunConcat(x: bv32, a: seq<byte>, b: seq<byte>)
    ensures Run(x, a + b) == Run(Run(x, a), b)
    decreases |a|
  {
    hide Xor, Step, Feed;
    if a == [] {
      assert a + b == b;
    } else {
      assert (a + b)[1..] == a[1..] + b;
      RunConcat(Feed(x, a[0]), a[1..], b);
    }
  }

  /** A checksum may be taken in pieces, each call continuing from the last result. */
  lemma UpdateConcat(crc: bv32, a: seq<byte>, b: seq<byte>)
    ensures Update(Update(crc, a), b) == Update(crc, a + b)
  {
    hide Run, Not;
    RunConcat(Not(crc), a, b);
    DoubleNot(Run(Not(crc), a));
  }

  lemma DoubleNot(x: bv32)
    ensures Not(Not(x)) == x
  {
    assert !!x == x;
  }

  lemma FeedInjective(x: bv32, y: bv32, b: byte)
    requires Feed(x, b) == Feed(y, b)
    ensures x == y
  {
    StepsInjective(8, Xor(x, Wide(b)), Xor(y, Wide(b)));
    CancelXor(x, y, Wide(b));
  }

  lemma CancelXor(x: bv32, y: bv32, z: bv32)
    ensures Xor(x, z) == Xor(y, z) ==> x == y
    ensures Xor(z, x) == Xor(z, y) ==> x == y
  {}

  lemma {:induction false} RunInjective(x: bv32, y: bv32, data: seq<byte>)
    requires Run(x, data) == Run(y, data)
    ensures x == y
    decreases |data|
  {
    hide Xor, Step, Feed;
    if data != [] {
      RunInjective(Feed(x, data[0]), Feed(y, data[0]), data[1..]);
      FeedInjective(x, y, data[0]);
    }
  }

  // ---- up to four bytes at once ---------------------------------------------------

  /** The little-endian number of a byte string (at most four bytes matter). */
  function Field(bs: seq<byte>): bv32
    decreases |bs|
  {
    if bs == [] then 0 else Xor(Wide(bs[0]), Up(Field(bs[1..])))
  }

  function Up(w: bv32): bv32 { w << 8 }

  /** The number has no bit at or above the given number of bytes. */
  predicate Within(w: bv32, bytes: nat) {
    if bytes == 0 then w == 0 else if bytes == 1 then w <= 0xff
    else if bytes == 2 then w <= 0xffff else if bytes == 3 then w <= 0xff_ffff else true
  }

  lemma WithinUp(b: byte, w: bv32, bytes: nat)
    requires Within(w, bytes)
    ensures Within(Xor(Wide(b), Up(w)), bytes + 1)
  {}

  lemma {:induction false} FieldWithin(bs: seq<byte>)
    ensures Within(Field(bs), |bs|)
    decreases |bs|
  {
    if bs != [] {
      hide Within, Xor, Up, Wide;
      FieldWithin(bs[1..]);
      WithinUp(bs[0], Field(bs[1..]), |bs| - 1);
    }
  }

  lemma SplitField(b: byte, w: bv32, c: byte, v: bv32, bytes: nat)
    requires bytes <= 3 && Within(w, bytes) && Within(v, bytes)
    requires Xor(Wide(b), Up(w)) == Xor(Wide(c), Up(v))
    ensures b == c && w == v
  {}

  lemma {:induction false} FieldInjective(a: seq<byte>, b: seq<byte>)
    requires |a| == |b| <= 4 && Field(a) == Field(b)
    ensures a == b
    decreases |a|
  {
    hide Within, Xor, Up, Wide;
    if a != [] {
      FieldWithin(a[1..]);
      FieldWithin(b[1..]);
      SplitField(a[0], Field(a[1..]), b[0], Field(b[1..]), |a| - 1);
      FieldInjective(a[1..], b[1..]);
      assert a == [a[0]] + a[1..] && b == [b[0]] + b[1..];
    }
  }

  lemma XorAssoc(a: bv32, b: bv32, c: bv32)
    ensures Xor(a, Xor(b, c)) == Xor(Xor(a, b), c)
  {
    calc {
      Xor(a, Xor(b, c));
      Xor(a, b ^ c);
      a ^ (b ^ c);
      (a ^ b) ^ c;
      Xor(a ^ b, c);
      Xor(Xor(a, b), c);
    }
  }

  /** Feeding up to four bytes is xoring in their field and stepping it through. */
  lemma {:induction false} RunField(x: bv32, bs: seq<byte>)
    requires |bs| <= 4
    ensures Run(x, bs) == Steps(8 * |bs|, Xor(x, Field(bs)))
    decreases |bs|
  {
    hide Xor, Step, Up, Wide, Within;
    if bs == [] {
      XorZero(x);
    } else {
      var w := Field(bs[1..]);
      var b := Wide(bs[0]);
      FieldWithin(bs[1..]);
      OutByte(w, |bs| - 1);
      XorAssoc(x, b, Up(w));
      StepsXor(8, Xor(x, b), Up(w));
      assert Steps(8, Xor(x, Field(bs))) == Xor(Feed(x, bs[0]), w);
      IterateAdd(Step, 8, 8 * |bs[1..]|, Xor(x, Field(bs)));
      RunField(Feed(x, bs[0]), bs[1..]);
    }
  }

  lemma OutByte(w: bv32, bytes: nat)
    requires bytes <= 3 && Within(w, bytes)
    ensures Steps(8, Up(w)) == w
  {
    OutEight(w);
  }

  lemma XorZero(x: bv32)
    ensures Xor(x, 0) == x
  {}

  ghost predicate EqualOutside(a: seq<byte>, b: seq<byte>, k: nat, m: nat) {
    m <= 4 && k + m <= |a| == |b| && a[..k] == b[..k] && a[k + m..] == b[k + m..]
  }

  lemma OutsideAt(a: seq<byte>, b: seq<byte>, k: nat, m: nat, x: nat)
    requires EqualOutside(a, b, k, m) && x < |a| && !(k <= x < k + m)
    ensures |b| == |a| && a[x] == b[x]
  {
    if x < k {
      assert a[..k][x] == b[..k][x];
    } else {
      assert a[k + m..][x - k - m] == b[k + m..][x - k - m];
    }
  }

  lemma OutsideIs(a: seq<byte>, b: seq<byte>, k: nat, m: nat)
    requires m <= 4 && k + m <= |a| == |b| && forall x | 0 <= x < |a| && !(k <= x < k + m) :: a[x] == b[x]
    ensures EqualOutside(a, b, k, m)
  {}

  /** Two messages of one length that differ, but only within four consecutive bytes. */
  ghost predicate Burst(a: seq<byte>, b: seq<byte>) {
    |a| == |b| && a != b &&
    exists k: nat, m: nat :: EqualOutside(a, b, k, m)
  }

  lemma BurstPlace(a: seq<byte>, b: seq<byte>) returns (k: nat, m: nat)
    requires Burst(a, b)
    ensures a != b && m <= 4 && k + m <= |a| == |b| && a[..k] == b[..k] && a[k + m..] == b[k + m..]
  {
    k, m :| EqualOutside(a, b, k, m);
  }

  /** Such messages never leave the register in the same state. */
  lemma BurstChangesRegister(x: bv32, a: seq<byte>, b: seq<byte>)
    requires Burst(a, b)
    ensures Run(x, a) != Run(x, b)
  {
    hide *;
    var k, m := BurstPlace(a, b);
    var p, u, v, s := a[..k], a[k..k + m], b[k..k + m], a[k + m..];
    assert a == p + (u + s) && b == p + (v + s);
    RunConcat(x, p, u + s);
    RunConcat(x, p, v + s);
    var y := Run(x, p);
    RunConcat(y, u, s);
    RunConcat(y, v, s);
    if Run(x, a) == Run(x, b) {
      RunInjective(Run(y, u), Run(y, v), s);
      RunField(y, u);
      RunField(y, v);
      StepsInjective(8 * m, Xor(y, Field(u)), Xor(y, Field(v)));
      CancelXor(Field(u), Field(v), y);
      FieldInjective(u, v);
      assert false;
    }
  }

  // ---- messages that carry their checksum ---------------------------------------------

  /** A payload followed by its checksum, low byte first. */
  predicate Sealed(code: seq<byte>) {
    |code| >= 4 && Checksum(code[..|code| - 4]) == Field(code[|code| - 4..])
  }

  function Residue(): bv32 { Steps(32, ALL_ONES) }

  lemma ComplementXor(s: bv32, w: bv32)
    ensures Xor(s, w) == ALL_ONES <==> w == Not(s)
  {
    assert s ^ !s == ALL_ONES;
    assert Xor(s, Not(s)) == ALL_ONES;
    CancelXor(w, Not(s), s);
  }

  /** The checksum field matches exactly when the whole codeword leaves one fixed register. */
  lemma SealedIffResidue(code: seq<byte>)
    requires |code| >= 4
    ensures Sealed(code) <==> Run(ALL_ONES, code) == Residue()
  {
    assert Not(0) == ALL_ONES;
    hide Run, Xor, Steps, Not, Field;
    var body, tail := code[..|code| - 4], code[|code| - 4..];
    assert code == body + tail;
    RunConcat(ALL_ONES, body, tail);
    var s := Run(ALL_ONES, body);
    RunField(s, tail);
    ComplementXor(s, Field(tail));
    if Run(ALL_ONES, code) == Residue() {
      StepsInjective(32, Xor(s, Field(tail)), ALL_ONES);
    }
  }

  /** Any corruption confined to four consecutive bytes, checksum field included, is caught. */
  lemma BurstBreaksSeal(code: seq<byte>, received: seq<byte>)
    requires Sealed(code) && Burst(code, received)
    ensures !Sealed(received)
  {
    SealedIffResidue(code);
    SealedIffResidue(received);
    BurstChangesRegister(ALL_ONES, code, received);
  }

  // ---- writing a checksum ----------------------------------------------------------------

  /** A checksum's byte, counted from the low end. */
  function Octet(w: bv32, k: nat): byte
    requires k < 4
  {
    match k
    case 0 => (w & 0xff) as bv8
    case 1 => ((w >> 8) & 0xff) as bv8
    case 2 => ((w >> 16) & 0xff) as bv8
    case 3 => (w >> 24) as bv8
  }

  function ChecksumBytes(w: bv32): seq<byte> { [Octet(w, 0), Octet(w, 1), Octet(w, 2), Octet(w, 3)] }

  lemma Octets(w: bv32)
    ensures Xor(Wide(Octet(w, 0)), Up(Xor(Wide(Octet(w, 1)), Up(Xor(Wide(Octet(w, 2)), Up(Xor(Wide(Octet(w, 3)), Up(0)))))))) == w
  {}

  lemma FieldOfChecksum(w: bv32)
    ensures Field(ChecksumBytes(w)) == w
  {
    hide Xor, Up, Wide, Octet;
    Octets(w);
    var b0, b1, b2, b3 := Octet(w, 0), Octet(w, 1), Octet(w, 2), Octet(w, 3);
    FieldCons(b3, []);
    FieldCons(b2, [b3]);
    FieldCons(b1, [b2, b3]);
    FieldCons(b0, [b1, b2, b3]);
    assert [b3] + [] == [b3] && [b2] + [b3] == [b2, b3] && [b1] + [b2, b3] == [b1, b2, b3];
    assert ChecksumBytes(w) == [b0] + [b1, b2, b3];
  }

  lemma FieldCons(b: byte, bs: seq<byte>)
    ensures Field([b] + bs) == Xor(Wide(b), Up(Field(bs)))
  {
    hide Xor, Up, Wide;
    assert ([b] + bs)[1..] == bs;
  }

  // ---- the two routines the firmware runs --------------------------------------------------

  /** The branch-free form of one bit: the mask is all ones exactly when a bit falls out. */
  function MaskedStep(x: bv32): bv32 {
    var mask := 0 - (x & 1);
    (x >> 1) ^ (POLY & mask)
  }

  lemma MaskedStepIsStep(x: bv32)
    ensures MaskedStep(x) == Step(x)
  {}

  /** The bit-at-a-time routine of the batch parser. */
  method UpdateBitwise(crc0: bv32, data: seq<byte>) returns (crc: bv32)
    ensures crc == Update(crc0, data)
  {
    hide Xor, Step, Not, Wide, MaskedStep;
    crc := Not(crc0);
    var i := 0;
    while i < |data|
      invariant 0 <= i <= |data|
      invariant Run(crc, data[i..]) == Run(Not(crc0), data)
    {
      ghost var start := crc;
      crc := Xor(crc, Wide(data[i]));
      for bit := 0 to 8
        invariant Steps(8 - bit, crc) == Feed(start, data[i])
      {
        MaskedStepIsStep(crc);
        crc := MaskedStep(crc);
      }
      assert data[i..][1..] == data[i + 1..];
      i := i + 1;
    }
    crc := Not(crc);
  }

  /** The sixteen-entry table of the link protocol. */
  function Nibble(i: bv32): bv32 {
    match i
    case 0 => 0x00000000 case 1 => 0x1db71064 case 2 => 0x3b6e20c8 case 3 => 0x26d930ac
    case 4 => 0x76dc4190 case 5 => 0x6b6b51f4 case 6 => 0x4db26158 case 7 => 0x5005713c
    case 8 => 0xedb88320 case 9 => 0xf00f9344 case 10 => 0xd6d6a3e8 case 11 => 0xcb61b38c
    case 12 => 0x9b64c2b0 case 13 => 0x86d3d2d4 case 14 => 0xa00ae278 case _ => 0xbdbdf21c
  }

  function TableStep(x: bv32): bv32 { (x >> 4) ^ Nibble(x & 15) }

  lemma TableStepIsFourSteps(x: bv32)
    ensures TableStep(x) == Steps(4, x)
  {
    hide *;
    var high, low := x >> 4, x & 15;
    NibbleParts(x);
    StepsXor(4, high << 4, low);
    OutFour(high);
    NibbleSteps(low);
    TableStepIs(x);
  }

  lemma NibbleParts(x: bv32)
    ensures x == Xor((x >> 4) << 4, x & 15) && x >> 4 < 0x1000_0000 && x & 15 < 16
  {}

  lemma TableStepIs(x: bv32)
    ensures TableStep(x) == Xor(x >> 4, Nibble(x & 15))
  {
    hide Nibble;
  }

  /** The table holds what four steps make of each nibble. */
  lemma NibbleSteps(i: bv32)
    requires i < 16
    ensures Steps(4, i) == Nibble(i)
  {
    FourSteps(i);
    hide Steps;
    if i < 8 {
      NibblesBelow(i);
    } else {
      NibblesAbove(i);
    }
  }

  lemma NibblesBelow(i: bv32)
    requires i < 8
    ensures Step(Step(Step(Step(i)))) == Nibble(i)
  {
    assert i == 0 || i == 1 || i == 2 || i == 3 || i == 4 || i == 5 || i == 6 || i == 7;
  }

  lemma NibblesAbove(i: bv32)
    requires 8 <= i < 16
    ensures Step(Step(Step(Step(i)))) == Nibble(i)
  {
    assert i == 8 || i == 9 || i == 10 || i == 11 || i == 12 || i == 13 || i == 14 || i == 15;
  }

  lemma FourSteps(x: bv32)
    ensures Steps(4, x) == Step(Step(Step(Step(x))))
  {
    hide Step;
    assert Steps(4, x) == Steps(3, Step(x)) == Steps(2, Step(Step(x))) == Steps(1, Step(Step(Step(x))));
  }

  /** The nibble-at-a-time routine of the link protocol computes the same checksum. */
  method ChecksumByTable(data: seq<byte>) returns (crc: bv32)
    ensures crc == Checksum(data)
  {
    NotZero();
    hide Xor, Step, Not, Wide, TableStep;
    crc := ALL_ONES;
    var i := 0;
    while i < |data|
      invariant 0 <= i <= |data|
      invariant Run(crc, data[i..]) == Run(Not(0), data)
    {
      ghost var x := Xor(crc, Wide(data[i]));
      TableStepIsFourSteps(x);
      TableStepIsFourSteps(TableStep(x));
      IterateAdd(Step, 4, 4, x);
      assert data[i..][1..] == data[i + 1..];
      crc := Xor(crc, Wide(data[i]));
      crc := TableStep(crc);
      crc := TableStep(crc);
      i := i + 1;
    }
    crc := Not(crc);
  }

  lemma NotZero()
    ensures Not(0) == ALL_ONES
  {}

  lemma FeedByTable(x: bv32, b: byte, y: bv32)
    requires TableStep(TableStep(Xor(x, Wide(b)))) == y
    ensures Feed(x, b) == y
  {
    hide Xor, Step, Wide, TableStep;
    TableStepIsFourSteps(Xor(x, Wide(b)));
    TableStepIsFourSteps(TableStep(Xor(x, Wide(b))));
    IterateAdd(Step, 4, 4, Xor(x, Wide(b)));
  }

  lemma ChecksumIs(data: seq<byte>)
    ensures Checksum(data) == Not(Run(Not(0), data))
  {
    hide Run, Not;
  }

  lemma NotLast()
    ensures Not(0x340b_c6d9) == 0xcbf4_3926
  {}

  /** Register values along a message, one before each byte and one at the end. */
  lemma {:induction false} RunAlong(data: seq<byte>, regs: seq<bv32>)
    requires |regs| == |data| + 1
    requires forall i :: 0 <= i < |data| ==> Feed(regs[i], data[i]) == regs[i + 1]
    ensures Run(regs[0], data) == regs[|data|]
    decreases |data|
  {
    hide Feed;
    if data != [] {
      RunAlong(data[1..], regs[1..]);
    }
  }

  /** The catalogued check value of this CRC, over the ASCII digits 1 to 9, which the
      protocol's own host test expects too. */
  lemma CheckValue()
    ensures Checksum([0x31, 0x32, 0x33, 0x34, 0x35, 0x36, 0x37, 0x38, 0x39]) == 0xcbf4_3926
  {
    hide Feed, Run, Not, Update, Steps, Step;
    var data: seq<byte> := [0x31, 0x32, 0x33, 0x34, 0x35, 0x36, 0x37, 0x38, 0x39];
    var regs: seq<bv32> := [0xffff_ffff, 0x7c231048, 0xb0acbb32, 0x77b79c2d, 0x641c1f5c, 0x340ac5e3, 0xf68d2c9e, 0xaffc9660, 0x651f2550, 0x340bc6d9];
    NotZero();
    NotLast();
    ChecksumIs(data);
    FeedByTable(regs[0], data[0], regs[1]);
    FeedByTable(regs[1], data[1], regs[2]);
    FeedByTable(regs[2], data[2], regs[3]);
    FeedByTable(regs[3], data[3], regs[4]);
    FeedByTable(regs[4], data[4], regs[5]);
    FeedByTable(regs[5], data[5], regs[6]);
    FeedByTable(regs[6], data[6], regs[7]);
    FeedByTable(regs[7], data[7], regs[8]);
    FeedByTable(regs[8], data[8], regs[9]);
    RunAlong(data, regs);
  }
}
