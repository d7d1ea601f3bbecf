/** UTF-8 text (RFC 3629) as the firmware validates, decodes, encodes and copies it. */
module Utf8 {
  import opened Bytes

  const QUESTION: byte := 0x3f

  predicate Continuation(b: byte) { b & 0xc0 == 0x80 }

  /** A byte of a terminated string; reading past the end yields the terminator. */
  function At(s: seq<byte>, i: nat): byte { if i < |s| then s[i] else 0 }

  /** Length of the well-formed sequence at the start, or 0. */
  function SequenceLen(s: seq<byte>): (n: nat)
    ensures n <= 4 && n <= |s|
  {
    if s == [] then 0
    else
      var c := s[0];
      if c < 0x80 then 1
      else if 0xc2 <= c <= 0xdf then if |s| >= 2 && Continuation(s[1]) then 2 else 0
      else if 0xe0 <= c <= 0xef then
        if |s| < 3 || !Continuation(s[1]) || !Continuation(s[2]) then 0
        else if (c == 0xe0 && s[1] < 0xa0) || (c == 0xed && s[1] >= 0xa0) then 0
        else 3
      else if 0xf0 <= c <= 0xf4 then
        if |s| < 4 || !Continuation(s[1]) || !Continuation(s[2]) || !Continuation(s[3]) then 0
        else if (c == 0xf0 && s[1] < 0x90) || (c == 0xf4 && s[1] >= 0x90) then 0
        else 4
      else 0
  }

  function Low(b: byte, mask: byte): bv32 { (b & mask) as bv32 }

  function Two(b0: byte, b1: byte): bv32 { (Low(b0, 0x1f) << 6) | Low(b1, 0x3f) }

  function Three(b0: byte, b1: byte, b2: byte): bv32 { (Low(b0, 0x0f) << 12) | (Low(b1, 0x3f) << 6) | Low(b2, 0x3f) }

  function Four(b0: byte, b1: byte, b2: byte, b3: byte): bv32 {
    (Low(b0, 0x07) << 18) | (Low(b1, 0x3f) << 12) | (Low(b2, 0x3f) << 6) | Low(b3, 0x3f)
  }

  /** The decoder: code point and bytes consumed; a byte that starts nothing counts as '?'. */
  function Next(s: seq<byte>): (r: (bv32, nat))
    requires s != []
    ensures 0 < r.1 <= 4
  {
    var p0, p1, p2, p3 := At(s, 0), At(s, 1), At(s, 2), At(s, 3);
    if p0 < 0x80 then (p0 as bv32, 1)
    else if p0 >= 0xc2 && p0 <= 0xdf && Continuation(p1) then (Two(p0, p1), 2)
    else if p0 >= 0xe0 && p0 <= 0xef && Continuation(p1) && Continuation(p2)
      && !(p0 == 0xe0 && p1 < 0xa0) && !(p0 == 0xed && p1 >= 0xa0)
    then (Three(p0, p1, p2), 3)
    else if p0 >= 0xf0 && p0 <= 0xf4 && Continuation(p1) && Continuation(p2) && Continuation(p3)
      && !(p0 == 0xf0 && p1 < 0x90) && !(p0 == 0xf4 && p1 >= 0x90)
    then (Four(p0, p1, p2, p3), 4)
    else (QUESTION as bv32, 1)
  }

  /** Decoder and validator agree on every sequence. */
  lemma NextAgrees(s: seq<byte>)
    requires s != []
    ensures SequenceLen(s) == 0 ==> Next(s) == (QUESTION as bv32, 1)
    ensures SequenceLen(s) > 0 ==> Next(s).1 == SequenceLen(s)
  {
    hide Two, Three, Four;
    EndIsNoContinuation();
  }

  lemma EndIsNoContinuation()
    ensures !Continuation(0)
  {}

  function Lead2(cp: bv32): byte
    requires cp < 0x800
  {
    (0xc0 | (cp >> 6)) as byte
  }

  function Lead3(cp: bv32): byte
    requires cp < 0x1_0000
  {
    (0xe0 | (cp >> 12)) as byte
  }

  function Lead4(cp: bv32): byte
    requires cp <= 0x10_ffff
  {
    (0xf0 | (cp >> 18)) as byte
  }

  /** Six bits of a code point as a continuation byte. */
  function Tail(bits: bv32): byte { (0x80 | (bits & 0x3f)) as byte }

  /** The encoder; nothing beyond the last code point. */
  function Encode(cp: bv32): (s: seq<byte>)
    ensures |s| <= 4
  {
    if cp < 0x80 then [cp as byte]
    else if cp < 0x800 then [Lead2(cp), Tail(cp)]
    else if cp < 0x1_0000 then [Lead3(cp), Tail(cp >> 6), Tail(cp)]
    else if cp <= 0x10_ffff then [Lead4(cp), Tail(cp >> 12), Tail(cp >> 6), Tail(cp)]
    else []
  }

  /** A Unicode scalar value other than the terminator. */
  predicate Scalar(cp: bv32) { 0 < cp <= 0x10_ffff && !(0xd800 <= cp <= 0xdfff) }

  lemma TailBits(bits: bv32)
    ensures Low(Tail(bits), 0x3f) == bits & 0x3f
  {}

  lemma LeadBits(cp: bv32)
    ensures cp < 0x800 ==> Low(Lead2(cp), 0x1f) == cp >> 6
    ensures cp < 0x1_0000 ==> Low(Lead3(cp), 0x0f) == cp >> 12
    ensures cp <= 0x10_ffff ==> Low(Lead4(cp), 0x07) == cp >> 18
  {}

  lemma TwoBits(cp: bv32)
    requires 0x80 <= cp < 0x800
    ensures 0xc2 <= Lead2(cp) <= 0xdf && Two(Lead2(cp), Tail(cp)) == cp
  {}

  lemma ThreeBits(cp: bv32)
    requires 0x800 <= cp < 0x1_0000
    ensures Three(Lead3(cp), Tail(cp >> 6), Tail(cp)) == cp
  {
    hide Lead3, Tail, Low;
    LeadBits(cp);
    TailBits(cp >> 6);
    TailBits(cp);
    assert ((cp >> 12) << 12) | (((cp >> 6) & 0x3f) << 6) | (cp & 0x3f) == cp;
  }

  lemma ThreeLead(cp: bv32)
    requires 0x800 <= cp < 0x1_0000
    ensures 0xe0 <= Lead3(cp) <= 0xef
    ensures Lead3(cp) == 0xe0 ==> Tail(cp >> 6) >= 0xa0
    ensures Lead3(cp) == 0xed ==> (Tail(cp >> 6) >= 0xa0 <==> 0xd800 <= cp <= 0xdfff)
  {}

  lemma FourBits(cp: bv32)
    requires 0x1_0000 <= cp <= 0x10_ffff
    ensures Four(Lead4(cp), Tail(cp >> 12), Tail(cp >> 6), Tail(cp)) == cp
  {
    hide Lead4, Tail, Low;
    LeadBits(cp);
    TailBits(cp >> 12);
    TailBits(cp >> 6);
    TailBits(cp);
    assert ((cp >> 18) << 18) | (((cp >> 12) & 0x3f) << 12) | (((cp >> 6) & 0x3f) << 6) | (cp & 0x3f) == cp;
  }

  lemma FourLead(cp: bv32)
    requires 0x1_0000 <= cp <= 0x10_ffff
    ensures 0xf0 <= Lead4(cp) <= 0xf4
    ensures Lead4(cp) == 0xf0 ==> Tail(cp >> 12) >= 0x90
    ensures Lead4(cp) == 0xf4 ==> Tail(cp >> 12) < 0x90
  {}

  lemma TailContinues(bits: bv32)
    ensures Continuation(Tail(bits))
  {}

  lemma OneByte(cp: bv32)
    requires cp < 0x80
    ensures cp as byte < 0x80 && (cp as byte) as bv32 == cp
  {}

  /** Every scalar value's encoding is well formed and decodes to it, whatever follows. */
  lemma DecodeEncode(cp: bv32, rest: seq<byte>)
    requires Scalar(cp)
    ensures 0 < |Encode(cp)| && SequenceLen(Encode(cp) + rest) == |Encode(cp)|
    ensures Next(Encode(cp) + rest) == (cp, |Encode(cp)|)
  {
    hide Two, Three, Four, Continuation, Lead2, Lead3, Lead4, Tail;
    TailContinues(cp);
    TailContinues(cp >> 6);
    TailContinues(cp >> 12);
    if cp < 0x80 {
      OneByte(cp);
    } else if cp < 0x800 {
      TwoBits(cp);
    } else if cp < 0x1_0000 {
      ThreeBits(cp);
      ThreeLead(cp);
    } else {
      FourBits(cp);
      FourLead(cp);
    }
  }

  lemma TwoBack(b0: byte, b1: byte)
    requires 0xc2 <= b0 <= 0xdf && Continuation(b1)
    ensures 0x80 <= Two(b0, b1) < 0x800 && Lead2(Two(b0, b1)) == b0 && Tail(Two(b0, b1)) == b1
  {}

  lemma ThreeBack(b0: byte, b1: byte, b2: byte)
    requires 0xe0 <= b0 <= 0xef && Continuation(b1) && Continuation(b2)
    requires !(b0 == 0xe0 && b1 < 0xa0) && !(b0 == 0xed && b1 >= 0xa0)
    ensures var cp := Three(b0, b1, b2);
      && 0x800 <= cp < 0x1_0000 && !(0xd800 <= cp <= 0xdfff)
      && Lead3(cp) == b0 && Tail(cp >> 6) == b1 && Tail(cp) == b2
  {}

  lemma FourBack(b0: byte, b1: byte, b2: byte, b3: byte)
    requires 0xf0 <= b0 <= 0xf4 && Continuation(b1) && Continuation(b2) && Continuation(b3)
    requires !(b0 == 0xf0 && b1 < 0x90) && !(b0 == 0xf4 && b1 >= 0x90)
    ensures var cp := Four(b0, b1, b2, b3);
      && 0x1_0000 <= cp <= 0x10_ffff
      && Lead4(cp) == b0 && Tail(cp >> 12) == b1 && Tail(cp >> 6) == b2 && Tail(cp) == b3
  {}

  /** The four kinds of well-formed sequences and what the decoder makes of them. */
  lemma Shapes(s: seq<byte>)
    requires SequenceLen(s) > 0
    ensures SequenceLen(s) == 1 ==> s[0] < 0x80 && Next(s).0 == s[0] as bv32
    ensures SequenceLen(s) == 2 ==>
      0xc2 <= s[0] <= 0xdf && Continuation(s[1]) && Next(s).0 == Two(s[0], s[1])
    ensures SequenceLen(s) == 3 ==>
      && 0xe0 <= s[0] <= 0xef && Continuation(s[1]) && Continuation(s[2])
      && !(s[0] == 0xe0 && s[1] < 0xa0) && !(s[0] == 0xed && s[1] >= 0xa0) && Next(s).0 == Three(s[0], s[1], s[2])
    ensures SequenceLen(s) == 4 ==>
      && 0xf0 <= s[0] <= 0xf4 && Continuation(s[1]) && Continuation(s[2]) && Continuation(s[3])
      && !(s[0] == 0xf0 && s[1] < 0x90) && !(s[0] == 0xf4 && s[1] >= 0x90) && Next(s).0 == Four(s[0], s[1], s[2], s[3])
  {
    hide Two, Three, Four, Continuation;
  }

  lemma OneBack(b: byte)
    requires 0 < b < 0x80
    ensures Scalar(b as bv32) && Encode(b as bv32) == [b]
  {}

  lemma TwoEncodes(b0: byte, b1: byte)
    requires 0xc2 <= b0 <= 0xdf && Continuation(b1)
    ensures Scalar(Two(b0, b1)) && Encode(Two(b0, b1)) == [b0, b1]
  {
    hide Two, Lead2, Tail;
    TwoBack(b0, b1);
  }

  lemma ThreeEncodes(b0: byte, b1: byte, b2: byte)
    requires 0xe0 <= b0 <= 0xef && Continuation(b1) && Continuation(b2)
    requires !(b0 == 0xe0 && b1 < 0xa0) && !(b0 == 0xed && b1 >= 0xa0)
    ensures Scalar(Three(b0, b1, b2)) && Encode(Three(b0, b1, b2)) == [b0, b1, b2]
  {
    hide Three, Lead3, Tail;
    ThreeBack(b0, b1, b2);
  }

  lemma FourEncodes(b0: byte, b1: byte, b2: byte, b3: byte)
    requires 0xf0 <= b0 <= 0xf4 && Continuation(b1) && Continuation(b2) && Continuation(b3)
    requires !(b0 == 0xf0 && b1 < 0x90) && !(b0 == 0xf4 && b1 >= 0x90)
    ensures Scalar(Four(b0, b1, b2, b3)) && Encode(Four(b0, b1, b2, b3)) == [b0, b1, b2, b3]
  {
    hide Four, Lead4, Tail;
    FourBack(b0, b1, b2, b3);
  }

  /** What the decoder takes from a well-formed sequence encodes to that very sequence. */
  lemma EncodeDecode(s: seq<byte>)
    requires SequenceLen(s) > 0 && s[0] != 0
    ensures Scalar(Next(s).0) && Encode(Next(s).0) == s[..SequenceLen(s)]
  {
    hide Two, Three, Four, SequenceLen, Next, Encode, Scalar, Continuation;
    Shapes(s);
    var n := SequenceLen(s);
    if n == 1 {
      OneBack(s[0]);
      assert s[..1] == [s[0]];
    } else if n == 2 {
      TwoEncodes(s[0], s[1]);
      assert s[..2] == [s[0], s[1]];
    } else if n == 3 {
      ThreeEncodes(s[0], s[1], s[2]);
      assert s[..3] == [s[0], s[1], s[2]];
    } else {
      FourEncodes(s[0], s[1], s[2], s[3]);
      assert s[..4] == [s[0], s[1], s[2], s[3]];
    }
  }

  // ---- whole texts -----------------------------------------------------------------------------------

  ghost predicate AllScalars(cps: seq<bv32>) { forall i | 0 <= i < |cps| :: Scalar(cps[i]) }

  function EncodeAll(cps: seq<bv32>): seq<byte> {
    if cps == [] then [] else Encode(cps[0]) + EncodeAll(cps[1..])
  }

  /** A text that can be cut into well-formed sequences from the left. */
  predicate WellFormed(s: seq<byte>)
    decreases |s|
  {
    s == [] || (SequenceLen(s) > 0 && s[0] != 0 && WellFormed(s[SequenceLen(s)..]))
  }

  /** Everything the decoder delivers for a text. */
  function Decode(s: seq<byte>): seq<bv32>
    decreases |s|
  {
    if s == [] then []
    else
      NextAgrees(s);
      [Next(s).0] + Decode(s[Next(s).1..])
  }

  /** Decoding any encoded text gives it back. */
  lemma {:induction false} TextDecodes(cps: seq<bv32>)
    requires AllScalars(cps)
    ensures WellFormed(EncodeAll(cps)) && Decode(EncodeAll(cps)) == cps
    decreases |cps|
  {
    hide Encode, Scalar, SequenceLen, Next;
    if cps != [] {
      var rest := EncodeAll(cps[1..]);
      DecodeEncode(cps[0], rest);
      TextDecodes(cps[1..]);
      FirstNotZero(cps[0], rest);
      assert (Encode(cps[0]) + rest)[|Encode(cps[0])|..] == rest;
    }
  }

  lemma FirstNotZero(cp: bv32, rest: seq<byte>)
    requires Scalar(cp)
    ensures Encode(cp) + rest != [] && (Encode(cp) + rest)[0] != 0
  {}

  /** Encoding what was decoded gives any well-formed text back. */
  lemma {:induction false} TextEncodes(s: seq<byte>)
    requires WellFormed(s)
    ensures AllScalars(Decode(s)) && EncodeAll(Decode(s)) == s
    decreases |s|
  {
    hide Encode, Scalar, SequenceLen, Next;
    if s != [] {
      NextAgrees(s);
      EncodeDecode(s);
      TextEncodes(s[SequenceLen(s)..]);
      assert s == s[..SequenceLen(s)] + s[SequenceLen(s)..];
    }
  }

  /** The texts that both validators accept are exactly the encodings of scalar values. */
  lemma WellFormedIff(s: seq<byte>)
    ensures WellFormed(s) <==> exists cps :: AllScalars(cps) && EncodeAll(cps) == s
  {
    hide WellFormed, Decode, EncodeAll, AllScalars;
    if WellFormed(s) {
      TextEncodes(s);
    }
    forall cps | AllScalars(cps) && EncodeAll(cps) == s ensures WellFormed(s) {
      TextDecodes(cps);
    }
  }

  // ---- the two validators --------------------------------------------------------------------------------

  /** The validator for buffers read from files. */
  method IsValidBuffer(buf: seq<byte>) returns (valid: bool)
    ensures valid <==> WellFormed(buf)
  {
    hide SequenceLen;
    var i := 0;
    while i < |buf|
      invariant 0 <= i <= |buf|
      invariant WellFormed(buf) <==> WellFormed(buf[i..])
      decreases |buf| - i
    {
      var n := BufferSequence(buf, i);
      if n == 0 {
        return false;
      }
      assert buf[i..][n..] == buf[i + n..];
      i := i + n;
    }
    assert buf[i..] == [];
    valid := true;
  }

  /** One step of it: lead byte, number of continuation bytes, then the exceptions. */
  method BufferSequence(buf: seq<byte>, i: nat) returns (n: nat)
    requires i < |buf|
    ensures n == if buf[i] == 0 then 0 else SequenceLen(buf[i..])
  {
    BufferShape(buf[i..]);
    hide Continuation, SequenceLen;
    var ch := buf[i];
    if ch == 0 {
      return 0;
    }
    if ch < 0x80 {
      return 1;
    }
    if ch < 0xc2 {
      return 0;
    }
    var following: nat;
    if ch & 0xe0 == 0xc0 {
      following := 1;
    } else if ch & 0xf0 == 0xe0 {
      following := 2;
    } else if ch & 0xf8 == 0xf0 {
      if ch > 0xf4 {
        return 0;
      }
      following := 3;
    } else {
      return 0;
    }
    if i + following >= |buf| {
      return 0;
    }
    var j := 1;
    while j <= following
      invariant 1 <= j <= following + 1
      invariant forall k | i < k < i + j :: Continuation(buf[k])
    {
      if !Continuation(buf[i + j]) {
        return 0;
      }
      j := j + 1;
    }
    if following == 2 {
      if ch == 0xe0 && buf[i + 1] < 0xa0 {
        return 0;
      }
      if ch == 0xed && buf[i + 1] >= 0xa0 {
        return 0;
      }
    } else if following == 3 {
      if ch == 0xf0 && buf[i + 1] < 0x90 {
        return 0;
      }
      if ch == 0xf4 && buf[i + 1] > 0x8f {
        return 0;
      }
    }
    return following + 1;
  }

  /** The masks of one validator and the ranges of the other describe the same lead bytes. */
  lemma BufferShape(s: seq<byte>)
    requires s != []
    ensures s[0] < 0x80 ==> SequenceLen(s) == 1
    ensures 0x80 <= s[0] < 0xc2 || s[0] > 0xf4 ==> SequenceLen(s) == 0
    ensures s[0] >= 0xc2 && s[0] & 0xe0 == 0xc0 ==> SequenceLen(s) == if |s| >= 2 && Continuation(s[1]) then 2 else 0
    ensures s[0] & 0xf0 == 0xe0 ==>
      SequenceLen(s) == if |s| >= 3 && Continuation(s[1]) && Continuation(s[2])
        && !(s[0] == 0xe0 && s[1] < 0xa0) && !(s[0] == 0xed && s[1] >= 0xa0) then 3 else 0
    ensures s[0] & 0xf8 == 0xf0 && s[0] <= 0xf4 ==>
      SequenceLen(s) == if |s| >= 4 && Continuation(s[1]) && Continuation(s[2]) && Continuation(s[3])
        && !(s[0] == 0xf0 && s[1] < 0x90) && !(s[0] == 0xf4 && s[1] > 0x8f) then 4 else 0
    ensures 0xc2 <= s[0] <= 0xf4 ==> s[0] & 0xe0 == 0xc0 || s[0] & 0xf0 == 0xe0 || s[0] & 0xf8 == 0xf0
  {
    hide Continuation;
  }

  /** The validator for strings on the screen; a string ends at its first zero. */
  method IsValidString(src: seq<byte>) returns (valid: bool)
    requires forall i | 0 <= i < |src| :: src[i] != 0
    ensures valid <==> WellFormed(src)
  {
    hide SequenceLen;
    var offset := 0;
    while offset < |src|
      invariant 0 <= offset <= |src|
      invariant WellFormed(src) <==> WellFormed(src[offset..])
      decreases |src| - offset
    {
      var n := SequenceLen(src[offset..]);
      if n == 0 {
        return false;
      }
      assert src[offset..][n..] == src[offset + n..];
      offset := offset + n;
    }
    assert src[offset..] == [];
    valid := true;
  }

  // ---- bounded copying -----------------------------------------------------------------------------------

  /** What fits: whole sequences only, a '?' for each byte that starts none, room for the end mark. */
  function Copy(src: seq<byte>, room: nat): seq<byte>
    decreases |src|
  {
    if src == [] || room <= 1 then []
    else
      var n := SequenceLen(src);
      if n == 0 then [QUESTION] + Copy(src[1..], room - 1)
      else if n >= room then []
      else src[..n] + Copy(src[n..], room - n)
  }

  method SafeCopy(dst: array<byte>, src: seq<byte>)
    modifies dst
    ensures dst.Length > 0 ==>
      var text := Copy(src, dst.Length); |text| < dst.Length && dst[..|text|] == text && dst[|text|] == 0
  {
    hide SequenceLen, Copy;
    if dst.Length == 0 {
      return;
    }
    dst[0] := 0;
    var from, to := 0, 0;
    CopyFits(src, dst.Length);
    assert src[0..] == src;
    while from < |src| && to + 1 < dst.Length
      invariant 0 <= from <= |src| && 0 <= to < dst.Length
      invariant dst[..to] + Copy(src[from..], dst.Length - to) == Copy(src, dst.Length)
      decreases |src| - from
    {
      ghost var rest, before := src[from..], dst[..to];
      var n := SequenceLen(src[from..]);
      CopyOn(before, rest, dst.Length - to);
      if n == 0 {
        dst[to] := QUESTION;
        assert dst[..to + 1] == before + [QUESTION];
        assert rest[1..] == src[from + 1..];
        from, to := from + 1, to + 1;
      } else {
        if to + n >= dst.Length {
          break;
        }
        forall i | 0 <= i < n {
          dst[to + i] := src[from + i];
        }
        assert dst[..to + n] == before + rest[..n];
        assert rest[n..] == src[from + n..];
        from, to := from + n, to + n;
      }
    }
    CopyEnds(src[from..], dst.Length - to);
    ghost var text := dst[..to];
    dst[to] := 0;
    assert dst[..to] == text;
  }

  /** What is copied already, one sequence further. */
  lemma CopyOn(before: seq<byte>, rest: seq<byte>, room: nat)
    requires rest != [] && room > 1
    ensures SequenceLen(rest) == 0 ==> (before + [QUESTION]) + Copy(rest[1..], room - 1) == before + Copy(rest, room)
    ensures 0 < SequenceLen(rest) < room ==>
      (before + rest[..SequenceLen(rest)]) + Copy(rest[SequenceLen(rest)..], room - SequenceLen(rest)) == before + Copy(rest, room)
  {
    hide SequenceLen, Copy;
    CopyStep(rest, room);
    var n := SequenceLen(rest);
    if n == 0 {
      Regroup(before, [QUESTION], Copy(rest[1..], room - 1));
    } else if n < room {
      Regroup(before, rest[..n], Copy(rest[n..], room - n));
    }
  }

  lemma Regroup(a: seq<byte>, b: seq<byte>, c: seq<byte>)
    ensures a + (b + c) == (a + b) + c
  {}

  lemma CopyEnds(src: seq<byte>, room: nat)
    ensures src == [] || room <= 1 || SequenceLen(src) >= room ==> Copy(src, room) == []
  {
    hide SequenceLen;
  }

  lemma CopyStep(src: seq<byte>, room: nat)
    requires src != [] && room > 1
    ensures SequenceLen(src) == 0 ==> Copy(src, room) == [QUESTION] + Copy(src[1..], room - 1)
    ensures 0 < SequenceLen(src) < room ==>
      Copy(src, room) == src[..SequenceLen(src)] + Copy(src[SequenceLen(src)..], room - SequenceLen(src))
  {
    hide SequenceLen;
  }

  lemma {:induction false} CopyFits(src: seq<byte>, room: nat)
    requires room > 0
    ensures |Copy(src, room)| < room
    decreases |src|
  {
    hide SequenceLen;
    if src != [] && room > 1 {
      var n := SequenceLen(src);
      if n == 0 {
        CopyFits(src[1..], room - 1);
      } else if n < room {
        CopyFits(src[n..], room - n);
      }
    }
  }

  /** A sequence keeps its length and meaning whatever follows it. */
  lemma SequenceStands(s: seq<byte>, rest: seq<byte>)
    requires SequenceLen(s) > 0 && s[0] != 0
    ensures SequenceLen(s[..SequenceLen(s)] + rest) == SequenceLen(s)
    ensures Next(s[..SequenceLen(s)] + rest) == Next(s)
  {
    hide Next, Encode, Scalar, SequenceLen;
    EncodeDecode(s);
    DecodeEncode(Next(s).0, rest);
    NextAgrees(s);
  }

  lemma QuestionStands(rest: seq<byte>)
    ensures SequenceLen([QUESTION] + rest) == 1 && Next([QUESTION] + rest) == (QUESTION as bv32, 1)
  {}

  ghost predicate NoZero(s: seq<byte>) { forall i | 0 <= i < |s| :: s[i] != 0 }

  /** Whatever the source, the copy is well-formed text, and its code points are the first
      ones of the source, bad bytes shown as '?'. */
  lemma {:induction false} CopyMeans(src: seq<byte>, room: nat)
    requires NoZero(src)
    ensures WellFormed(Copy(src, room)) && Decode(Copy(src, room)) <= Decode(src)
    decreases |src|
  {
    hide SequenceLen, Next, Encode, Scalar, Copy, WellFormed, Decode;
    var n := SequenceLen(src);
    NothingDecodes();
    if src == [] || room <= 1 || n >= room {
      CopyEnds(src, room);
    } else {
      CopyStep(src, room);
      NextAgrees(src);
      DecodeFirst(src);
      if n == 0 {
        var rest := Copy(src[1..], room - 1);
        CopyMeans(src[1..], room - 1);
        QuestionStands(rest);
        DecodeFirst([QUESTION] + rest);
        assert ([QUESTION] + rest)[1..] == rest;
      } else {
        var rest := Copy(src[n..], room - n);
        CopyMeans(src[n..], room - n);
        SequenceStands(src, rest);
        NextAgrees(src[..n] + rest);
        DecodeFirst(src[..n] + rest);
        assert (src[..n] + rest)[n..] == rest && (src[..n] + rest)[0] == src[0];
      }
    }
  }

  /** Nothing more would fit: the next code point of the source needs more room than is left. */
  lemma {:induction false} CopyFull(src: seq<byte>, room: nat)
    requires NoZero(src) && room > 0
    ensures Decode(Copy(src, room)) <= Decode(src)
    ensures var done, all := Decode(Copy(src, room)), Decode(src);
      |done| < |all| ==> |Copy(src, room)| + |Encode(all[|done|])| >= room
    decreases |src|
  {
    hide SequenceLen, Next, Encode, Scalar, Copy, WellFormed, Decode;
    var n := SequenceLen(src);
    NothingDecodes();
    CopyMeans(src, room);
    if src == [] || room <= 1 || n >= room {
      CopyEnds(src, room);
      if src != [] {
        DecodeFirst(src);
        FirstLength(src);
      }
    } else {
      CopyStep(src, room);
      NextAgrees(src);
      DecodeFirst(src);
      if n == 0 {
        var rest := Copy(src[1..], room - 1);
        CopyFull(src[1..], room - 1);
        QuestionStands(rest);
        DecodeFirst([QUESTION] + rest);
        assert ([QUESTION] + rest)[1..] == rest;
      } else {
        var rest := Copy(src[n..], room - n);
        CopyFull(src[n..], room - n);
        SequenceStands(src, rest);
        NextAgrees(src[..n] + rest);
        DecodeFirst(src[..n] + rest);
        assert (src[..n] + rest)[n..] == rest && (src[..n] + rest)[0] == src[0];
      }
    }
  }

  lemma FirstLength(s: seq<byte>)
    requires s != [] && s[0] != 0
    ensures |Encode(Next(s).0)| >= 1 && |Encode(Next(s).0)| >= SequenceLen(s)
  {
    hide Next, SequenceLen, Encode, Scalar;
    NextAgrees(s);
    QuestionLength();
    if SequenceLen(s) > 0 {
      EncodeDecode(s);
    }
  }

  lemma QuestionLength()
    ensures |Encode(QUESTION as bv32)| == 1
  {}

  lemma NothingDecodes()
    ensures WellFormed([]) && Decode([]) == []
  {}

  /** One step of the decoder and of the validators. */
  lemma DecodeFirst(s: seq<byte>)
    requires s != []
    ensures 0 < Next(s).1 <= |s| && Decode(s) == [Next(s).0] + Decode(s[Next(s).1..])
    ensures SequenceLen(s) > 0 && s[0] != 0 && WellFormed(s[SequenceLen(s)..]) ==> WellFormed(s)
  {
    hide SequenceLen, Next;
    NextAgrees(s);
  }

  /** Well-formed text that fits is copied as it is. */
  lemma {:induction false} CopyWhole(src: seq<byte>, room: nat)
    requires WellFormed(src) && |src| < room
    ensures Copy(src, room) == src
    decreases |src|
  {
    hide SequenceLen;
    if src != [] {
      var n := SequenceLen(src);
      CopyWhole(src[n..], room - n);
      assert src == src[..n] + src[n..];
    }
  }

  /** Copying a copy again changes nothing. */
  lemma CopyIdempotent(src: seq<byte>, room: nat)
    requires NoZero(src) && room > 0
    ensures Copy(Copy(src, room), room) == Copy(src, room)
  {
    hide Copy, WellFormed, Decode;
    CopyMeans(src, room);
    CopyFits(src, room);
    CopyWhole(Copy(src, room), room);
  }
}
