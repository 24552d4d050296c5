/**
  Conversion between UTF-8 and UTF-16 on a little-endian host.

  The specification is the encoding of a text, a sequence of Unicode scalar values: UTF-8 as in
  section 3 of RFC 3629, UTF-16 as in sections 2.1 and 2.2 of RFC 2781.
*/
module Encoding {
  import opened Common

  type Scalar = v: bv32 | v < 0xD800 || 0xE000 <= v < 0x110000 witness 0

  const SURROGATE_LEAD_FIRST: bv32 := 0xD800
  const SURROGATE_LEAD_LAST: bv32 := 0xDBFF
  const SURROGATE_TRAIL_FIRST: bv32 := 0xDC00
  const SURROGATE_TRAIL_LAST: bv32 := 0xDFFF
  const SURROGATE_FIRST_VALUE: bv32 := 0x10000

  // ---------- The encodings of a text ----------

  function LowByte(x: bv32): bv8 {
    (x & 0xFF) as bv8
  }

  function Utf8Char(v: Scalar): (r: seq<bv8>)
    ensures 1 <= |r| <= 4
  {
    if v < 0x80 then [LowByte(v)]
    else if v < 0x800 then [LowByte(0xC0 | (v >> 6)), LowByte(0x80 | (v & 0x3F))]
    else if v < 0x10000 then
      [LowByte(0xE0 | (v >> 12)), LowByte(0x80 | ((v >> 6) & 0x3F)), LowByte(0x80 | (v & 0x3F))]
    else
      [LowByte(0xF0 | (v >> 18)), LowByte(0x80 | ((v >> 12) & 0x3F)),
       LowByte(0x80 | ((v >> 6) & 0x3F)), LowByte(0x80 | (v & 0x3F))]
  }

  /** A 16-bit unit in the byte order of the text. */
  function UnitBytes(u: bv32, isBigEndian: bool): (r: seq<bv8>)
    ensures |r| == 2
  {
    if isBigEndian then [LowByte(u >> 8), LowByte(u)] else [LowByte(u), LowByte(u >> 8)]
  }

  // The surrogate pair of a code point beyond 16 bits.
  function LeadOf(v: bv32): bv32 { SURROGATE_LEAD_FIRST + ((v - SURROGATE_FIRST_VALUE) >> 10) }
  function TrailOf(v: bv32): bv32 { SURROGATE_TRAIL_FIRST + ((v - SURROGATE_FIRST_VALUE) & 0x3FF) }

  function Utf16Char(v: Scalar, isBigEndian: bool): (r: seq<bv8>)
    ensures |r| == if v < 0x10000 then 2 else 4
  {
    if v < SURROGATE_FIRST_VALUE then UnitBytes(v, isBigEndian)
    else UnitBytes(LeadOf(v), isBigEndian) + UnitBytes(TrailOf(v), isBigEndian)
  }

  function Utf8(text: seq<Scalar>): seq<bv8> {
    if text == [] then [] else Utf8Char(text[0]) + Utf8(text[1..])
  }

  function Utf16(text: seq<Scalar>, isBigEndian: bool): seq<bv8> {
    if text == [] then [] else Utf16Char(text[0], isBigEndian) + Utf16(text[1..], isBigEndian)
  }

  lemma {:induction false} Utf8Append(a: seq<Scalar>, b: seq<Scalar>)
    ensures Utf8(a + b) == Utf8(a) + Utf8(b)
    decreases |a|
  {
    hide Utf8Char;
    if a == [] {
      assert a + b == b;
    } else {
      Utf8Append(a[1..], b);
      assert (a + b)[1..] == a[1..] + b;
    }
  }

  lemma {:induction false} Utf16Append(a: seq<Scalar>, b: seq<Scalar>, be: bool)
    ensures Utf16(a + b, be) == Utf16(a, be) + Utf16(b, be)
    decreases |a|
  {
    hide Utf16Char;
    if a == [] {
      assert a + b == b;
    } else {
      Utf16Append(a[1..], b, be);
      assert (a + b)[1..] == a[1..] + b;
    }
  }

  lemma Utf8One(v: Scalar)
    ensures Utf8([v]) == Utf8Char(v)
  {
    assert [v][1..] == [];
    assert Utf8Char(v) + [] == Utf8Char(v);
  }

  lemma Utf16One(v: Scalar, be: bool)
    ensures Utf16([v], be) == Utf16Char(v, be)
  {
    assert [v][1..] == [];
    assert Utf16Char(v, be) + [] == Utf16Char(v, be);
  }

  // The number of a character from its bytes, by section 3 of RFC 3629.

  ghost predicate IsTrail(b: bv32) {
    0x80 <= b < 0xC0
  }

  ghost predicate Denote2(b0: bv32, b1: bv32, v: bv32) {
    0xC0 <= b0 < 0xE0 && IsTrail(b1) && v == ((b0 - 0xC0) << 6) + (b1 - 0x80)
  }

  ghost predicate Denote3(b0: bv32, b1: bv32, b2: bv32, v: bv32) {
    && 0xE0 <= b0 < 0xF0 && IsTrail(b1) && IsTrail(b2)
    && v == ((b0 - 0xE0) << 12) + ((b1 - 0x80) << 6) + (b2 - 0x80)
  }

  ghost predicate Denote4(b0: bv32, b1: bv32, b2: bv32, b3: bv32, v: bv32) {
    && 0xF0 <= b0 < 0xF8 && IsTrail(b1) && IsTrail(b2) && IsTrail(b3)
    && v == ((b0 - 0xF0) << 18) + ((b1 - 0x80) << 12) + ((b2 - 0x80) << 6) + (b3 - 0x80)
  }

  lemma Split2(v: bv32)
    requires 0x80 <= v < 0x800
    ensures Denote2(0xC0 | (v >> 6), 0x80 | (v & 0x3F), v)
  {
  }

  lemma Split3(v: bv32)
    requires 0x800 <= v < 0x10000
    ensures Denote3(0xE0 | (v >> 12), 0x80 | ((v >> 6) & 0x3F), 0x80 | (v & 0x3F), v)
  {
  }

  lemma Split4(v: bv32)
    requires 0x10000 <= v < 0x110000
    ensures Denote4(0xF0 | (v >> 18), 0x80 | ((v >> 12) & 0x3F), 0x80 | ((v >> 6) & 0x3F), 0x80 | (v & 0x3F), v)
  {
  }

  lemma WideByte(x: bv32)
    requires x < 0x100
    ensures LowByte(x) as bv32 == x
  {
  }

  lemma AllBytes(v: bv32)
    requires v < 0x110000
    ensures v < 0x800 ==> 0xC0 | (v >> 6) < 0x100
    ensures v < 0x10000 ==> 0xE0 | (v >> 12) < 0x100
    ensures 0xF0 | (v >> 18) < 0x100
    ensures 0x80 | ((v >> 12) & 0x3F) < 0x100 && 0x80 | ((v >> 6) & 0x3F) < 0x100 && 0x80 | (v & 0x3F) < 0x100
  {
  }

  /** The form of a scalar value has as few bytes as will do, and they denote it. */
  lemma Utf8CharIs(v: Scalar)
    ensures var b := Utf8Char(v);
            if v < 0x80 then |b| == 1 && b[0] as bv32 == v
            else if v < 0x800 then |b| == 2 && Denote2(b[0] as bv32, b[1] as bv32, v)
            else if v < 0x10000 then |b| == 3 && Denote3(b[0] as bv32, b[1] as bv32, b[2] as bv32, v)
            else |b| == 4 && Denote4(b[0] as bv32, b[1] as bv32, b[2] as bv32, b[3] as bv32, v)
  {
    hide LowByte, Utf8Char, Denote2, Denote3, Denote4;
    if v < 0x80 {
      Utf8CharOf1(v);
    } else if v < 0x800 {
      Utf8CharOf2(v);
    } else if v < 0x10000 {
      Utf8CharOf3(v);
    } else {
      Utf8CharOf4(v);
    }
  }

  lemma Utf8CharOf1(v: Scalar)
    requires v < 0x80
    ensures var b := Utf8Char(v); |b| == 1 && b[0] as bv32 == v
  {
    WideByte(v);
  }

  lemma Utf8CharOf2(v: Scalar)
    requires 0x80 <= v < 0x800
    ensures var b := Utf8Char(v); |b| == 2 && Denote2(b[0] as bv32, b[1] as bv32, v)
  {
    hide LowByte, Denote2;
    AllBytes(v);
    Split2(v);
    WideByte(0xC0 | (v >> 6));
    WideByte(0x80 | (v & 0x3F));
  }

  lemma Utf8CharOf3(v: Scalar)
    requires 0x800 <= v < 0x10000
    ensures var b := Utf8Char(v); |b| == 3 && Denote3(b[0] as bv32, b[1] as bv32, b[2] as bv32, v)
  {
    hide *;
    CharOf3(v);
    AllBytes(v);
    Split3(v);
    WideByte(0xE0 | (v >> 12));
    WideByte(0x80 | ((v >> 6) & 0x3F));
    WideByte(0x80 | (v & 0x3F));
  }

  lemma Utf8CharOf4(v: Scalar)
    requires 0x10000 <= v
    ensures var b := Utf8Char(v); |b| == 4 && Denote4(b[0] as bv32, b[1] as bv32, b[2] as bv32, b[3] as bv32, v)
  {
    hide *;
    CharOf4(v);
    AllBytes(v);
    Split4(v);
    WideByte(0xF0 | (v >> 18));
    WideByte(0x80 | ((v >> 12) & 0x3F));
    WideByte(0x80 | ((v >> 6) & 0x3F));
    WideByte(0x80 | (v & 0x3F));
  }

  // The number of a character from its units, by sections 2.1 and 2.2 of RFC 2781.

  /** A unit, the upper byte first in big-endian text. */
  ghost predicate DenoteUnit(b: seq<bv8>, isBigEndian: bool, u: bv32) {
    && |b| == 2
    && u == if isBigEndian then ((b[0] as bv32) << 8) | b[1] as bv32 else ((b[1] as bv32) << 8) | b[0] as bv32
  }

  ghost predicate DenotePair(lead: bv32, trail: bv32, v: bv32) {
    && 0xD800 <= lead < 0xDC00 && 0xDC00 <= trail < 0xE000
    && v == (((lead & 0x3FF) << 10) | (trail & 0x3FF)) + 0x10000
  }

  lemma UnitIs(u: bv32, isBigEndian: bool)
    requires u < 0x10000
    ensures DenoteUnit(UnitBytes(u, isBigEndian), isBigEndian, u)
  {
    hide *;
    var b := UnitBytes(u, isBigEndian);
    ReadUnitBytes(u, isBigEndian);
    ReadIsUnit(b, isBigEndian);
  }

  lemma ReadIsUnit(b: seq<bv8>, isBigEndian: bool)
    requires |b| == 2
    ensures DenoteUnit(b, isBigEndian, ReadUnit(b[0], b[1], isBigEndian))
  {
  }

  lemma PairIs(v: Scalar)
    requires 0x10000 <= v
    ensures DenotePair(LeadOf(v), TrailOf(v), v) && LeadOf(v) < 0x10000 && TrailOf(v) < 0x10000
  {
    hide LeadOf, TrailOf, JoinSurrogates, LeadPart, TrailPart, DenotePair;
    LeadBits(v);
    TrailBits(v);
    SurrogateBits(v);
    JoinedPair(LeadOf(v), TrailOf(v));
  }

  lemma JoinedPair(lead: bv32, trail: bv32)
    requires 0xD800 <= lead < 0xDC00 && 0xDC00 <= trail < 0xE000
    ensures DenotePair(lead, trail, JoinSurrogates(lead, trail))
  {
  }

  /** A scalar value is one unit, or a pair of surrogates that denotes it. */
  lemma Utf16CharIs(v: Scalar, isBigEndian: bool)
    ensures var b := Utf16Char(v, isBigEndian);
            if v < 0x10000 then DenoteUnit(b, isBigEndian, v)
            else exists lead, trail ::
              && DenotePair(lead, trail, v)
              && DenoteUnit(b[..2], isBigEndian, lead) && DenoteUnit(b[2..], isBigEndian, trail)
  {
    hide UnitBytes, LeadOf, TrailOf, DenotePair, DenoteUnit;
    if v < 0x10000 {
      UnitIs(v, isBigEndian);
    } else {
      PairIs(v);
      UnitIs(LeadOf(v), isBigEndian);
      UnitIs(TrailOf(v), isBigEndian);
      var b := Utf16Char(v, isBigEndian);
      assert b[..2] == UnitBytes(LeadOf(v), isBigEndian) && b[2..] == UnitBytes(TrailOf(v), isBigEndian);
    }
  }

  // ---------- From UTF-8 to UTF-16 ----------

  datatype EState = Start | SecondOf4Bytes | Penultimate | Final

  /** Swap the two low order bytes of a 16 bit value. */
  function Swap16bit(value: bv32): bv32 {
    ((value & 0xFF) << 8) | ((value & 0xFF00) >> 8)
  }

  /** A 16-bit unit as the host stores it. */
  function Store(u: bv32): seq<bv8> {
    [LowByte(u), LowByte(u >> 8)]
  }

  // Six more bits of a code point, from a continuation byte.
  function Bits12(nCur: bv32, read: bv32): bv32 { nCur | ((0x3F & read) << 12) }
  function Bits6(nCur: bv32, read: bv32): bv32 { nCur | ((0x3F & read) << 6) }
  function Bits0(nCur: bv32, read: bv32): bv32 { nCur | (0x3F & read) }

  function DecodeByte(state: EState, nCur: bv32, b: bv8): (EState, bv32) {
    var read := b as bv32;
    match state
    case Start =>
      if 0xF0 & read == 0xF0 then (SecondOf4Bytes, (0x7 & read) << 18)
      else if 0xE0 & read == 0xE0 then (Penultimate, (0xFFFF_FF1F & read) << 12)
      else if 0xC0 & read == 0xC0 then (Final, (0xFFFF_FF3F & read) << 6)
      else (Start, read)
    case SecondOf4Bytes => (Penultimate, Bits12(nCur, read))
    case Penultimate => (Final, Bits6(nCur, read))
    case Final => (Start, Bits0(nCur, read))
  }

  function StoreCodePoint(codePoint: bv32, be: bool): seq<bv8> {
    if codePoint >= SURROGATE_FIRST_VALUE then
      var x := codePoint - SURROGATE_FIRST_VALUE;
      var lead := (x >> 10) + SURROGATE_LEAD_FIRST;
      var trail := (x & 0x3FF) + SURROGATE_TRAIL_FIRST;
      Store(if be then Swap16bit(lead) else lead) + Store(if be then Swap16bit(trail) else trail)
    else Store(if be then Swap16bit(codePoint) else codePoint)
  }

  /** What the decoder writes for the bytes `s` from the given state on. */
  function Decode(state: EState, nCur: bv32, s: seq<bv8>, be: bool): seq<bv8>
    decreases |s|
  {
    if s == [] then [] else
      var (state1, nCur1) := DecodeByte(state, nCur, s[0]);
      (if state1 == Start then StoreCodePoint(nCur1, be) else []) + Decode(state1, nCur1, s[1..], be)
  }

  method Utf8ToUtf16(utf8In: seq<bv8>, isBigEndian: bool) returns (utf16Out: seq<bv8>)
    ensures utf16Out == Decode(Start, 0, utf8In, isBigEndian)
  {
    hide DecodeByte, StoreCodePoint, Decode;
    utf16Out := [];
    var nCur: bv32, state, pRead := 0, Start, 0;
    assert utf8In[0..] == utf8In;
    while pRead < |utf8In|
      invariant pRead <= |utf8In|
      invariant utf16Out + Decode(state, nCur, utf8In[pRead..], isBigEndian)
                == Decode(Start, 0, utf8In, isBigEndian)
    {
      assert utf8In[pRead..] == [utf8In[pRead]] + utf8In[pRead + 1..];
      DecodeNext(state, nCur, utf8In[pRead], utf8In[pRead + 1..], isBigEndian);
      var (newState, newCur) := DecodeByte(state, nCur, utf8In[pRead]);
      Append3(utf16Out, if newState == Start then StoreCodePoint(newCur, isBigEndian) else [],
              Decode(newState, newCur, utf8In[pRead + 1..], isBigEndian));
      assert utf16Out + [] == utf16Out;
      state, nCur := newState, newCur;
      pRead := pRead + 1;
      if state == Start {
        utf16Out := utf16Out + StoreCodePoint(nCur, isBigEndian);
      }
    }
    DecodeNothing(state, nCur, isBigEndian);
    assert utf8In[pRead..] == [] && utf16Out + [] == utf16Out;
  }

  lemma DecodeNothing(state: EState, n: bv32, be: bool)
    ensures Decode(state, n, [], be) == []
  {
  }

  lemma StoreInOrder(u: bv32, be: bool)
    ensures Store(if be then Swap16bit(u) else u) == UnitBytes(u, be)
  {
    if be {
      assert LowByte(Swap16bit(u)) == LowByte(u >> 8);
      assert LowByte(Swap16bit(u) >> 8) == LowByte(u);
    }
  }

  lemma StoreIsUtf16(v: Scalar, be: bool)
    ensures StoreCodePoint(v, be) == Utf16Char(v, be)
  {
    hide Store, UnitBytes, Swap16bit;
    if v >= SURROGATE_FIRST_VALUE {
      StoreInOrder(LeadOf(v), be);
      StoreInOrder(TrailOf(v), be);
    } else {
      StoreInOrder(v, be);
    }
  }

  // The bits of one character survive, by length.

  lemma Bits3(v: bv32)
    requires 0x800 <= v < 0x10000
    ensures var c0 := 0xE0 | (v >> 12);
            && c0 < 0x100 && 0x80 | ((v >> 6) & 0x3F) < 0x100 && 0x80 | (v & 0x3F) < 0x100
            && 0xF0 & c0 != 0xF0 && 0xE0 & c0 == 0xE0
            && Bits0(Bits6((0xFFFF_FF1F & c0) << 12, 0x80 | ((v >> 6) & 0x3F)), 0x80 | (v & 0x3F)) == v
  {
  }

  lemma Bits4(v: bv32)
    requires 0x10000 <= v < 0x110000
    ensures var c0 := 0xF0 | (v >> 18);
            && c0 < 0x100 && 0x80 | ((v >> 12) & 0x3F) < 0x100
            && 0x80 | ((v >> 6) & 0x3F) < 0x100 && 0x80 | (v & 0x3F) < 0x100
            && 0xF0 & c0 == 0xF0
            && Bits0(Bits6(Bits12((0x7 & c0) << 18, 0x80 | ((v >> 12) & 0x3F)), 0x80 | ((v >> 6) & 0x3F)),
                     0x80 | (v & 0x3F)) == v
  {
  }

  lemma Decode1(v: Scalar, n: bv32)
    requires v < 0x80
    ensures |Utf8Char(v)| == 1 && DecodeByte(Start, n, Utf8Char(v)[0]) == (Start, v)
  {
  }

  lemma Decode2(v: Scalar, n: bv32)
    requires 0x80 <= v < 0x800
    ensures var c := Utf8Char(v);
            var (s1, n1) := DecodeByte(Start, n, c[0]);
            |c| == 2 && s1 == Final && DecodeByte(s1, n1, c[1]) == (Start, v)
  {
  }

  // One byte `x` in each state.

  lemma DecodeLead(n: bv32, x: bv32)
    requires x < 0x100
    ensures 0xF0 & x == 0xF0 ==> DecodeByte(Start, n, LowByte(x)) == (SecondOf4Bytes, (0x7 & x) << 18)
    ensures 0xF0 & x != 0xF0 && 0xE0 & x == 0xE0 ==>
              DecodeByte(Start, n, LowByte(x)) == (Penultimate, (0xFFFF_FF1F & x) << 12)
  {
    hide LowByte;
    WideByte(x);
  }

  lemma DecodeTrail(n: bv32, x: bv32)
    requires x < 0x100
    ensures DecodeByte(SecondOf4Bytes, n, LowByte(x)) == (Penultimate, Bits12(n, x))
    ensures DecodeByte(Penultimate, n, LowByte(x)) == (Final, Bits6(n, x))
    ensures DecodeByte(Final, n, LowByte(x)) == (Start, Bits0(n, x))
  {
    hide LowByte, Bits0, Bits6, Bits12;
    WideByte(x);
  }

  lemma CharOf3(v: Scalar)
    requires 0x800 <= v < 0x10000
    ensures Utf8Char(v) == [LowByte(0xE0 | (v >> 12)), LowByte(0x80 | ((v >> 6) & 0x3F)), LowByte(0x80 | (v & 0x3F))]
  {
    hide LowByte;
  }

  lemma CharOf4(v: Scalar)
    requires 0x10000 <= v
    ensures Utf8Char(v) == [LowByte(0xF0 | (v >> 18)), LowByte(0x80 | ((v >> 12) & 0x3F)),
                            LowByte(0x80 | ((v >> 6) & 0x3F)), LowByte(0x80 | (v & 0x3F))]
  {
    hide LowByte;
  }

  lemma Decode3(v: Scalar, n: bv32)
    requires 0x800 <= v < 0x10000
    ensures var c := Utf8Char(v);
            var (s1, n1) := DecodeByte(Start, n, c[0]);
            |c| == 3 && s1 == Penultimate
            && var (s2, n2) := DecodeByte(s1, n1, c[1]); s2 == Final && DecodeByte(s2, n2, c[2]) == (Start, v)
  {
    hide *;
    Bits3(v);
    CharOf3(v);
    var x0, x1, x2 := 0xE0 | (v >> 12), 0x80 | ((v >> 6) & 0x3F), 0x80 | (v & 0x3F);
    var n1 := (0xFFFF_FF1F & x0) << 12;
    DecodeLead(n, x0);
    DecodeTrail(n1, x1);
    DecodeTrail(Bits6(n1, x1), x2);
  }

  lemma Decode4(v: Scalar, n: bv32)
    requires 0x10000 <= v
    ensures var c := Utf8Char(v);
            var (s1, n1) := DecodeByte(Start, n, c[0]);
            |c| == 4 && s1 == SecondOf4Bytes
            && var (s2, n2) := DecodeByte(s1, n1, c[1]);
            s2 == Penultimate
            && var (s3, n3) := DecodeByte(s2, n2, c[2]); s3 == Final && DecodeByte(s3, n3, c[3]) == (Start, v)
  {
    hide *;
    Bits4(v);
    CharOf4(v);
    var x0, x1 := 0xF0 | (v >> 18), 0x80 | ((v >> 12) & 0x3F);
    var x2, x3 := 0x80 | ((v >> 6) & 0x3F), 0x80 | (v & 0x3F);
    var n1 := (0x7 & x0) << 18;
    var n2 := Bits12(n1, x1);
    DecodeLead(n, x0);
    DecodeTrail(n1, x1);
    DecodeTrail(n2, x2);
    DecodeTrail(Bits6(n2, x2), x3);
  }

  lemma DecodeNext(state: EState, n: bv32, b: bv8, s: seq<bv8>, be: bool)
    ensures var (state1, n1) := DecodeByte(state, n, b);
            Decode(state, n, [b] + s, be) ==
              (if state1 == Start then StoreCodePoint(n1, be) else []) + Decode(state1, n1, s, be)
  {
    hide DecodeByte, StoreCodePoint;
    assert ([b] + s)[1..] == s;
  }

  lemma DecodeChar(v: Scalar, n: bv32, rest: seq<bv8>, be: bool)
    ensures Decode(Start, n, Utf8Char(v) + rest, be) == StoreCodePoint(v, be) + Decode(Start, v, rest, be)
  {
    hide LowByte, StoreCodePoint, DecodeByte, Decode;
    var c := Utf8Char(v);
    var (s1, n1) := DecodeByte(Start, n, c[0]);
    DecodeNext(Start, n, c[0], c[1..] + rest, be);
    assert c + rest == [c[0]] + (c[1..] + rest);
    if v < 0x80 {
      Decode1(v, n);
      assert c[1..] + rest == rest;
    } else {
      var (s2, n2) := DecodeByte(s1, n1, c[1]);
      DecodeNext(s1, n1, c[1], c[2..] + rest, be);
      assert c[1..] + rest == [c[1]] + (c[2..] + rest);
      if v < 0x800 {
        Decode2(v, n);
        assert c[2..] + rest == rest;
      } else {
        var (s3, n3) := DecodeByte(s2, n2, c[2]);
        DecodeNext(s2, n2, c[2], c[3..] + rest, be);
        assert c[2..] + rest == [c[2]] + (c[3..] + rest);
        if v < 0x10000 {
          Decode3(v, n);
          assert c[3..] + rest == rest;
        } else {
          Decode4(v, n);
          DecodeNext(s3, n3, c[3], rest, be);
          assert c[3..] + rest == [c[3]] + rest;
        }
      }
    }
  }

  /** The decoder turns the UTF-8 form of any text into its UTF-16 form. */
  lemma {:induction false} DecodeIsUtf16(text: seq<Scalar>, n: bv32, be: bool)
    ensures Decode(Start, n, Utf8(text), be) == Utf16(text, be)
    decreases |text|
  {
    hide Utf8Char, Utf16Char, StoreCodePoint, DecodeByte;
    if text != [] {
      DecodeChar(text[0], n, Utf8(text[1..]), be);
      DecodeIsUtf16(text[1..], text[0], be);
      StoreIsUtf16(text[0], be);
    }
  }

  // ---------- From UTF-16 to UTF-8 ----------

  // The continuation bytes of a code point.
  function Trail12(n: bv32): bv8 { LowByte(0x80 | ((n >> 12) & 0x3F)) }
  function Trail6(n: bv32): bv8 { LowByte(0x80 | ((n >> 6) & 0x3F)) }
  function Trail0(n: bv32): bv8 { LowByte(0x80 | (n & 0x3F)) }

  /** The continuation bytes still to be written for the code point `n`. */
  function Rest(state: EState, n: bv32): seq<bv8> {
    match state
    case Start => []
    case Final => [Trail0(n)]
    case Penultimate => [Trail6(n), Trail0(n)]
    case SecondOf4Bytes => [Trail12(n), Trail6(n), Trail0(n)]
  }

  /** The state after the first byte of a character has been written. */
  function AfterFirst(n: bv32): EState {
    if n < 0x80 then Start else if n < 0x800 then Final
    else if n < SURROGATE_FIRST_VALUE then Penultimate else SecondOf4Bytes
  }

  function FirstByte(n: bv32): bv8 {
    if n < 0x80 then LowByte(n)
    else if n < 0x800 then LowByte(0xC0 | (n >> 6))
    else if n < SURROGATE_FIRST_VALUE then LowByte(0xE0 | (n >> 12))
    else LowByte(0xF0 | (n >> 18))
  }

  lemma CharIsFirstAndRest(v: Scalar)
    ensures Utf8Char(v) == [FirstByte(v)] + Rest(AfterFirst(v), v)
  {
    hide LowByte;
  }

  /** The UTF-8 form of a text, except that only the first byte of its last character is there. */
  function FirstOfLast(text: seq<Scalar>): seq<bv8> {
    if text == [] then [] else Utf8(text[..|text| - 1]) + [FirstByte(text[|text| - 1])]
  }

  function ReadUnit(b0: bv8, b1: bv8, isBigEndian: bool): bv32 {
    if isBigEndian then ((b0 as bv32) << 8) | (b1 as bv32) else (b0 as bv32) | ((b1 as bv32) << 8)
  }

  lemma ReadUnitBytes(u: bv32, be: bool)
    requires u < 0x10000
    ensures ReadUnit(UnitBytes(u, be)[0], UnitBytes(u, be)[1], be) == u
  {
  }

  function LeadPart(lead: bv32): bv32 { (lead & 0x3FF) << 10 }
  function TrailPart(trail: bv32): bv32 { trail & 0x3FF }

  function JoinSurrogates(lead: bv32, trail: bv32): bv32 {
    (LeadPart(lead) | TrailPart(trail)) + SURROGATE_FIRST_VALUE
  }

  lemma LeadBits(v: Scalar)
    requires v >= SURROGATE_FIRST_VALUE
    ensures SURROGATE_LEAD_FIRST <= LeadOf(v) <= SURROGATE_LEAD_LAST && LeadOf(v) < 0x10000
    ensures LeadPart(LeadOf(v)) == (v - SURROGATE_FIRST_VALUE) & 0xFFC00
  {
  }

  lemma TrailBits(v: Scalar)
    ensures SURROGATE_TRAIL_FIRST <= TrailOf(v) <= SURROGATE_TRAIL_LAST && TrailOf(v) < 0x10000
    ensures TrailPart(TrailOf(v)) == (v - SURROGATE_FIRST_VALUE) & 0x3FF
  {
  }

  lemma SurrogateBits(v: Scalar)
    requires v >= SURROGATE_FIRST_VALUE
    ensures JoinSurrogates(LeadOf(v), TrailOf(v)) == v
  {
    hide LeadOf, TrailOf, LeadPart, TrailPart;
    LeadBits(v);
    TrailBits(v);
  }

  /** Where a character's bytes lie in the UTF-16 form of a text. */
  lemma CharAt(text: seq<Scalar>, k: nat, be: bool)
    requires k < |text|
    ensures var p, c := |Utf16(text[..k], be)|, Utf16Char(text[k], be);
            && p + |c| == |Utf16(text[..k + 1], be)| <= |Utf16(text, be)|
            && Utf16(text, be)[p..p + |c|] == c
  {
    hide Utf16Char;
    var c := Utf16Char(text[k], be);
    assert text[..k + 1] == text[..k] + [text[k]];
    assert text == text[..k + 1] + text[k + 1..];
    Utf16Append(text[..k], [text[k]], be);
    Utf16Append(text[..k + 1], text[k + 1..], be);
    Utf16One(text[k], be);
  }

  lemma {:induction false} PrefixGrows(text: seq<Scalar>, j: nat, k: nat, be: bool)
    requires j <= k <= |text|
    ensures |Utf16(text[..j], be)| <= |Utf16(text[..k], be)| <= |Utf16(text, be)|
  {
    assert text[..k] == text[..j] + text[j..k];
    assert text == text[..k] + text[k..];
    Utf16Append(text[..j], text[j..k], be);
    Utf16Append(text[..k], text[k..], be);
  }

  /** `k` characters read and `inLen` bytes not yet: there are more; `inLen` bytes read: that was all. */
  lemma ReadSoFar(text: seq<Scalar>, k: nat, inLen: nat, be: bool)
    requires k <= |text| && inLen <= |Utf16(text, be)|
    requires text != [] ==> |Utf16(text[..|text| - 1], be)| < inLen
    ensures |Utf16(text[..k], be)| < inLen ==> k < |text|
    ensures |Utf16(text[..k], be)| >= inLen ==> k == |text|
  {
    hide Utf16;
    assert text[..|text|] == text;
    if k < |text| {
      PrefixGrows(text, k, |text| - 1, be);
    }
  }

  lemma AllButRest(text: seq<Scalar>, utf8Out: seq<bv8>, stale: seq<bv8>)
    requires text != []
    requires var last := text[|text| - 1]; utf8Out + Rest(AfterFirst(last), last) == stale + Utf8(text)
    ensures utf8Out == stale + FirstOfLast(text)
  {
    hide *;
    var last := text[|text| - 1];
    var tail := Rest(AfterFirst(last), last);
    MissingRest(text);
    assert stale + (FirstOfLast(text) + tail) == (stale + FirstOfLast(text)) + tail;
    SameTail(utf8Out, stale + FirstOfLast(text), tail);
  }

  lemma SameTail(a: seq<bv8>, b: seq<bv8>, tail: seq<bv8>)
    requires a + tail == b + tail
    ensures a == b
  {
    assert (a + tail)[..|a|] == a && (b + tail)[..|b|] == b;
  }

  /** The converter object; the state survives from one block to the next. */
  class Converter {
    var state: EState

    method ReadChar(utf16In: seq<bv8>, start: nat, isBigEndian: bool, ghost v: Scalar)
      returns (nCur16: bv32, pRead: nat)
      requires var c := Utf16Char(v, isBigEndian); start + |c| <= |utf16In| && utf16In[start..start + |c|] == c
      ensures nCur16 == v && pRead == start + |Utf16Char(v, isBigEndian)|
    {
      hide UnitBytes, ReadUnit, JoinSurrogates, LeadOf, TrailOf;
      ghost var c := Utf16Char(v, isBigEndian);
      ghost var bytes := utf16In[start..start + |c|];
      assert utf16In[start] == bytes[0] && utf16In[start + 1] == bytes[1];
      assert |c| == 4 ==> utf16In[start + 2] == bytes[2] && utf16In[start + 3] == bytes[3];
      if v < SURROGATE_FIRST_VALUE {
        ReadUnitBytes(v, isBigEndian);
      } else {
        LeadBits(v);
        TrailBits(v);
        SurrogateBits(v);
        ReadUnitBytes(LeadOf(v), isBigEndian);
        ReadUnitBytes(TrailOf(v), isBigEndian);
      }
      pRead := start;
      nCur16 := ReadUnit(utf16In[pRead], utf16In[pRead + 1], isBigEndian);
      pRead := pRead + 2;
      if SURROGATE_LEAD_FIRST <= nCur16 <= SURROGATE_LEAD_LAST {
        var trail := ReadUnit(utf16In[pRead], utf16In[pRead + 1], isBigEndian);
        pRead := pRead + 2;
        nCur16 := JoinSurrogates(nCur16, trail);
      }
    }

    method WriteFirst(nCur16: bv32) returns (nCur: bv8)
      modifies this
      ensures nCur == FirstByte(nCur16) && state == AfterFirst(nCur16)
    {
      hide LowByte;
      if nCur16 < 0x80 {
        nCur, state := LowByte(nCur16), Start;
      } else if nCur16 < 0x800 {
        nCur, state := LowByte(0xC0 | (nCur16 >> 6)), Final;
      } else if nCur16 < SURROGATE_FIRST_VALUE {
        nCur, state := LowByte(0xE0 | (nCur16 >> 12)), Penultimate;
      } else {
        nCur, state := LowByte(0xF0 | (nCur16 >> 18)), SecondOf4Bytes;
      }
    }

    method WriteNext(nCur16: bv32) returns (nCur: bv8)
      requires state != Start
      modifies this
      ensures Rest(old(state), nCur16) == [nCur] + Rest(state, nCur16)
    {
      hide LowByte;
      match state
      case SecondOf4Bytes => nCur, state := LowByte(0x80 | ((nCur16 >> 12) & 0x3F)), Penultimate;
      case Penultimate => nCur, state := LowByte(0x80 | ((nCur16 >> 6) & 0x3F)), Final;
      case Final => nCur, state := LowByte(0x80 | (nCur16 & 0x3F)), Start;
    }

    /**
      Convert a block that holds the UTF-16 form of `text`.  The loop stops when `inLen` bytes
      have been read, so only the first byte of the last character is written; the remaining
      bytes of a character left over from the block before come out with no bits in them.
    */
    method Utf16ToUtf8(utf16In: seq<bv8>, inLen: nat, isBigEndian: bool, firstBlock: bool, ghost text: seq<Scalar>)
      returns (utf8Out: seq<bv8>)
      requires utf16In == Utf16(text, isBigEndian) && inLen <= |utf16In|
      requires text != [] ==> |Utf16(text[..|text| - 1], isBigEndian)| < inLen
      modifies this
      ensures var s := if firstBlock then Start else old(state);
              if text == [] then utf8Out == [] && state == s
              else utf8Out == Rest(s, 0) + FirstOfLast(text) && state == AfterFirst(text[|text| - 1])
    {
      hide Utf8Char, Utf16Char, Utf8, Utf16, Rest, FirstOfLast, FirstByte, AfterFirst;
      StartIsDone();
      utf8Out := [];
      var nCur16: bv32, pRead := 0, 0;
      if firstBlock {
        state := Start;
      }
      ghost var stale := Rest(state, 0);
      ghost var k := 0;
      Nothing(text, isBigEndian, stale);
      while pRead < inLen
        invariant k <= |text| && pRead == |Utf16(text[..k], isBigEndian)|
        invariant utf8Out + Rest(state, nCur16) == stale + Utf8(text[..k])
        invariant k == 0 ==> utf8Out == [] || text != []
        invariant text == [] ==> state == if firstBlock then Start else old(state)
        invariant k == |text| && k > 0 ==> state == AfterFirst(text[k - 1]) && nCur16 == text[k - 1]
        decreases |text| - k, |Rest(state, nCur16)|
      {
        ReadSoFar(text, k, inLen, isBigEndian);
        var nCur: bv8;
        if state == Start {
          CharAt(text, k, isBigEndian);
          nCur16, pRead := ReadChar(utf16In, pRead, isBigEndian, text[k]);
          nCur := WriteFirst(nCur16);
          OneMore(text, k);
          Append3(stale, Utf8(text[..k]), [nCur] + Rest(state, nCur16));
          Append3(stale + Utf8(text[..k]), [nCur], Rest(state, nCur16));
          assert utf8Out == stale + Utf8(text[..k]);
          k := k + 1;
        } else {
          nCur := WriteNext(nCur16);
          Append3(utf8Out, [nCur], Rest(state, nCur16));
        }
        utf8Out := utf8Out + [nCur];
      }
      ReadSoFar(text, k, inLen, isBigEndian);
      assert text[..|text|] == text;
      if text != [] {
        AllButRest(text, utf8Out, stale);
      }
    }
  }

  lemma Nothing(text: seq<Scalar>, be: bool, stale: seq<bv8>)
    ensures Utf16(text[..0], be) == [] && [] + stale == stale + Utf8(text[..0])
  {
  }

  lemma StartIsDone()
    ensures forall n :: Rest(Start, n) == []
  {
  }

  lemma OneMore(text: seq<Scalar>, k: nat)
    requires k < |text|
    ensures var v := text[k];
            Utf8(text[..k + 1]) == Utf8(text[..k]) + ([FirstByte(v)] + Rest(AfterFirst(v), v))
  {
    hide Utf8Char;
    assert text[..k + 1] == text[..k] + [text[k]];
    Utf8Append(text[..k], [text[k]]);
    Utf8One(text[k]);
    CharIsFirstAndRest(text[k]);
  }

  // ---------- What the callers get ----------

  /** The complete form of a text is that with only the first byte of the last character, and the rest. */
  lemma MissingRest(text: seq<Scalar>)
    requires text != []
    ensures var last := text[|text| - 1];
            Utf8(text) == FirstOfLast(text) + Rest(AfterFirst(last), last)
  {
    hide Utf8Char, FirstByte, Rest, Utf8, AfterFirst;
    var n := |text| - 1;
    OneMore(text, n);
    assert text[..n + 1] == text;
    Append3(Utf8(text[..n]), [FirstByte(text[n])], Rest(AfterFirst(text[n]), text[n]));
  }

  /** A block of exactly its bytes is converted completely if and only if its last character is ASCII. */
  lemma CompleteIffLastIsAscii(text: seq<Scalar>)
    ensures FirstOfLast(text) == Utf8(text) <==> text == [] || text[|text| - 1] < 0x80
  {
    hide Utf8Char, FirstByte, Utf8, FirstOfLast, Trail0, Trail6, Trail12;
    if text == [] {
      NoText();
    } else {
      MissingRest(text);
    }
  }

  lemma NoText()
    ensures FirstOfLast([]) == Utf8([]) == []
  {
  }

  /**
    NUL-terminated text, one byte more than its length: the conversion is complete, and
    converting back gives the original bytes.
  */
  lemma RoundTrip(text: seq<Scalar>, be: bool)
    ensures FirstOfLast(text + [0]) == Utf8(text) + [0]
    ensures Decode(Start, 0, FirstOfLast(text + [0]), be) == Utf16(text, be) + [0, 0]
  {
    hide Decode;
    var whole: seq<Scalar> := text + [0];
    CompleteIffLastIsAscii(whole);
    DecodeIsUtf16(whole, 0, be);
    Utf8Append(text, [0]);
    Utf16Append(text, [0], be);
    Utf8One(0);
    Utf16One(0, be);
  }

  /** The bits of a character below its first UTF-8 byte are all zero. */
  predicate NoBitsAfterFirst(v: Scalar) {
    if v < 0x80 then true
    else if v < 0x800 then v & 0x3F == 0
    else if v < SURROGATE_FIRST_VALUE then v & 0xFFF == 0
    else v & 0x3FFFF == 0
  }

  lemma StaleBits(v: bv32)
    ensures Trail0(v) == Trail0(0) <==> v & 0x3F == 0
    ensures Trail6(v) == Trail6(0) <==> (v >> 6) & 0x3F == 0
    ensures Trail12(v) == Trail12(0) <==> (v >> 12) & 0x3F == 0
  {
  }

  lemma StaleRest(v: Scalar)
    ensures Rest(AfterFirst(v), 0) == Rest(AfterFirst(v), v) <==> NoBitsAfterFirst(v)
  {
    hide Trail0, Trail6, Trail12;
    StaleBits(v);
    var stale, rest := Rest(AfterFirst(v), 0), Rest(AfterFirst(v), v);
    if v < 0x80 {
    } else if v < 0x800 {
      assert stale == rest <==> stale[0] == rest[0];
    } else if v < SURROGATE_FIRST_VALUE {
      assert stale == rest <==> stale[0] == rest[0] && stale[1] == rest[1];
    } else {
      assert stale == rest <==> stale[0] == rest[0] && stale[1] == rest[1] && stale[2] == rest[2];
    }
  }

  lemma FirstOfBoth(a: seq<Scalar>, b: seq<Scalar>)
    requires b != []
    ensures FirstOfLast(a + b) == Utf8(a) + FirstOfLast(b)
  {
    hide Utf8, FirstByte;
    var front := b[..|b| - 1];
    assert (a + b)[..|a + b| - 1] == a + front;
    Utf8Append(a, front);
    Append3(Utf8(a), Utf8(front), [FirstByte(b[|b| - 1])]);
  }

  /**
    Two blocks: the state is kept between them but the code point is not, so the outputs join
    to the output for the whole text exactly when the character at the seam has no bits to lose.
  */
  lemma BlocksJoinIff(a: seq<Scalar>, b: seq<Scalar>)
    requires a != [] && b != []
    ensures var last := a[|a| - 1];
            FirstOfLast(a) + (Rest(AfterFirst(last), 0) + FirstOfLast(b)) == FirstOfLast(a + b)
            <==> NoBitsAfterFirst(last)
  {
    hide *;
    var last := a[|a| - 1];
    StaleRest(last);
    SameRestLength(last);
    MissingRest(a);
    FirstOfBoth(a, b);
    Append3(FirstOfLast(a), Rest(AfterFirst(last), last), FirstOfLast(b));
    SameMiddle(FirstOfLast(a), Rest(AfterFirst(last), last), Rest(AfterFirst(last), 0), FirstOfLast(b));
  }

  lemma SameRestLength(v: Scalar)
    ensures |Rest(AfterFirst(v), v)| == |Rest(AfterFirst(v), 0)|
  {
  }

  // ---------- A file read in blocks ----------

  ghost predicate NonEmpty(blocks: seq<seq<Scalar>>) {
    forall k :: 0 <= k < |blocks| ==> blocks[k] != []
  }

  function Flat(blocks: seq<seq<Scalar>>): seq<Scalar> {
    if blocks == [] then [] else blocks[0] + Flat(blocks[1..])
  }

  function LastOf(block: seq<Scalar>): Scalar
    requires block != []
  {
    block[|block| - 1]
  }

  /** The bytes written for a character left over from the block before: as many as are missing, without its bits. */
  function Stale(block: seq<Scalar>): seq<bv8>
    requires block != []
  {
    Rest(AfterFirst(LastOf(block)), 0)
  }

  function Missing(block: seq<Scalar>): seq<bv8>
    requires block != []
  {
    Rest(AfterFirst(LastOf(block)), LastOf(block))
  }

  /** What is written for the blocks, `stale` being left over from before. */
  ghost function BlockOutputs(stale: seq<bv8>, blocks: seq<seq<Scalar>>): seq<bv8>
    requires NonEmpty(blocks)
    decreases |blocks|
  {
    if blocks == [] then [] else stale + FirstOfLast(blocks[0]) + BlockOutputs(Stale(blocks[0]), blocks[1..])
  }

  /** No bits are lost where one block ends and the next begins, and the last character needs no more bytes. */
  ghost predicate CleanSeams(blocks: seq<seq<Scalar>>)
    requires NonEmpty(blocks)
  {
    && (forall k :: 0 <= k < |blocks| - 1 ==> NoBitsAfterFirst(LastOf(blocks[k])))
    && (blocks != [] ==> LastOf(blocks[|blocks| - 1]) < 0x80)
  }

  lemma CleanSeamsStep(blocks: seq<seq<Scalar>>)
    requires NonEmpty(blocks) && |blocks| > 1
    ensures NonEmpty(blocks[1..])
    ensures CleanSeams(blocks) <==> NoBitsAfterFirst(LastOf(blocks[0])) && CleanSeams(blocks[1..])
  {
    hide NoBitsAfterFirst;
    var rest := blocks[1..];
    assert forall k :: 0 <= k < |rest| ==> rest[k] == blocks[k + 1];
    if NoBitsAfterFirst(LastOf(blocks[0])) && CleanSeams(rest) {
      forall k | 0 <= k < |blocks| - 1 ensures NoBitsAfterFirst(LastOf(blocks[k])) {
        assert k > 0 ==> blocks[k] == rest[k - 1];
      }
    }
  }

  /** A text of five parts is equal to another exactly when the parts of the same length are. */
  lemma PartsDecide(a: seq<bv8>, b: seq<bv8>, m: seq<bv8>, x: seq<bv8>, y: seq<bv8>)
    requires |a| == |b|
    ensures a + m + x == b + (m + y) <==> a == b && x == y
  {
    assert (a + m + x)[..|a|] == a && (b + (m + y))[..|b|] == b;
    assert (a + m + x)[|a| + |m|..] == x && (b + (m + y))[|b| + |m|..] == y;
  }

  lemma StaleIsMissing(block: seq<Scalar>)
    requires block != []
    ensures |Stale(block)| == |Missing(block)| && (Stale(block) == Missing(block) <==> NoBitsAfterFirst(LastOf(block)))
    ensures Utf8(block) == FirstOfLast(block) + Missing(block)
    ensures Missing(block) == [] <==> LastOf(block) < 0x80
  {
    hide Utf8Char, FirstByte, NoBitsAfterFirst, Utf8, FirstOfLast, Trail0, Trail6, Trail12;
    StaleRest(LastOf(block));
    MissingRest(block);
  }

  lemma {:induction false} BlocksFrom(stale: seq<bv8>, rest: seq<bv8>, blocks: seq<seq<Scalar>>)
    requires NonEmpty(blocks) && blocks != [] && |stale| == |rest|
    ensures BlockOutputs(stale, blocks) == rest + Utf8(Flat(blocks)) <==> stale == rest && CleanSeams(blocks)
    decreases |blocks|
  {
    hide FirstOfLast, Utf8, Stale, Missing, NoBitsAfterFirst;
    var first, more := blocks[0], blocks[1..];
    StaleIsMissing(first);
    if more == [] {
      OneBlock(blocks);
      PartsDecide(stale, rest, FirstOfLast(first), [], Missing(first));
    } else {
      CleanSeamsStep(blocks);
      BlocksFrom(Stale(first), Missing(first), more);
      Utf8Append(first, Flat(more));
      Append3(FirstOfLast(first), Missing(first), Utf8(Flat(more)));
      PartsDecide(stale, rest, FirstOfLast(first), BlockOutputs(Stale(first), more), Missing(first) + Utf8(Flat(more)));
    }
  }

  lemma OneBlock(blocks: seq<seq<Scalar>>)
    requires |blocks| == 1
    ensures Flat(blocks) == blocks[0]
  {
    assert Flat(blocks[1..]) == [] && blocks[0] + [] == blocks[0];
  }

  /**
    A file read in blocks is converted to the UTF-8 form of its text if and only if no seam
    loses bits and its very last character is ASCII.
  */
  lemma BlocksAreCompleteIff(blocks: seq<seq<Scalar>>)
    requires NonEmpty(blocks)
    ensures BlockOutputs([], blocks) == Utf8(Flat(blocks)) <==> CleanSeams(blocks)
  {
    hide FirstOfLast, Utf8Char, NoBitsAfterFirst;
    if blocks != [] {
      BlocksFrom([], [], blocks);
      assert [] + Utf8(Flat(blocks)) == Utf8(Flat(blocks));
    }
  }

  lemma {:induction false} OneBlockMore(stale: seq<bv8>, blocks: seq<seq<Scalar>>, block: seq<Scalar>)
    requires NonEmpty(blocks) && block != []
    ensures NonEmpty(blocks + [block])
    ensures BlockOutputs(stale, blocks + [block]) ==
            BlockOutputs(stale, blocks)
            + ((if blocks == [] then stale else Stale(blocks[|blocks| - 1])) + FirstOfLast(block))
    decreases |blocks|
  {
    hide FirstOfLast, Stale;
    if blocks == [] {
      assert ([] + [block])[1..] == [];
      LastBlock(stale, block);
    } else {
      assert (blocks + [block])[1..] == blocks[1..] + [block];
      OneBlockMore(Stale(blocks[0]), blocks[1..], block);
      var before := if |blocks| == 1 then Stale(blocks[0]) else Stale(blocks[1..][|blocks| - 2]);
      Append3(stale + FirstOfLast(blocks[0]), BlockOutputs(Stale(blocks[0]), blocks[1..]), before + FirstOfLast(block));
    }
  }

  lemma LastBlock(stale: seq<bv8>, block: seq<Scalar>)
    requires block != []
    ensures BlockOutputs(stale, [block]) == [] + (stale + FirstOfLast(block))
  {
    hide FirstOfLast;
    assert [block][1..] == [];
    assert stale + FirstOfLast(block) + [] == stale + FirstOfLast(block);
  }

  /** Read a UTF-16 file block by block. */
  method ReadFile(converter: Converter, blocks: seq<seq<bv8>>, isBigEndian: bool, ghost texts: seq<seq<Scalar>>)
    returns (utf8Out: seq<bv8>)
    requires |texts| == |blocks| && NonEmpty(texts)
    requires forall k :: 0 <= k < |blocks| ==> blocks[k] == Utf16(texts[k], isBigEndian)
    modifies converter
    ensures utf8Out == BlockOutputs([], texts)
    ensures utf8Out == Utf8(Flat(texts)) <==> CleanSeams(texts)
  {
    hide Utf8, Utf16, FirstOfLast, Rest, AfterFirst, CleanSeams, BlockOutputs;
    utf8Out := [];
    var firstBlock := true;
    NoBlocks();
    for n := 0 to |blocks|
      invariant firstBlock <==> n == 0
      invariant n > 0 ==> converter.state == AfterFirst(LastOf(texts[n - 1]))
      invariant utf8Out == BlockOutputs([], texts[..n])
    {
      LastIsShort(texts[n], isBigEndian);
      var block := converter.Utf16ToUtf8(blocks[n], |blocks[n]|, isBigEndian, firstBlock, texts[n]);
      StartIsDone();
      assert texts[..n + 1] == texts[..n] + [texts[n]];
      OneBlockMore([], texts[..n], texts[n]);
      utf8Out := utf8Out + block;
      firstBlock := false;
    }
    assert texts[..|texts|] == texts;
    BlocksAreCompleteIff(texts);
  }

  lemma NoBlocks()
    ensures BlockOutputs([], []) == []
  {
  }

  lemma LastIsShort(text: seq<Scalar>, be: bool)
    requires text != []
    ensures |Utf16(text[..|text| - 1], be)| < |Utf16(text, be)|
  {
    hide Utf16Char;
    CharAt(text, |text| - 1, be);
    assert text[..|text|] == text;
  }

  /** A file of one block that ends in U+00E9: the last byte is missing. */
  lemma LastByteMissing()
    ensures var file: seq<seq<Scalar>> := [[0xE9]];
            && NonEmpty(file) && !CleanSeams(file)
            && BlockOutputs([], file) == [0xC3] && Utf8(Flat(file)) == [0xC3, 0xA9]
  {
    var block: seq<Scalar> := [0xE9];
    hide BlockOutputs, Utf8;
    NonAsciiBytes();
    OneBlock([block]);
    LastBlock([], block);
    Utf8One(0xE9);
    assert block[..0] == [];
    assert Utf8(block[..0]) == [] by { NoText(); }
  }

  lemma NonAsciiBytes()
    ensures Utf8Char(0xE9) == [0xC3, 0xA9] && FirstByte(0xE9) == 0xC3
  {
  }

  lemma SameMiddle(a: seq<bv8>, m1: seq<bv8>, m2: seq<bv8>, b: seq<bv8>)
    requires |m1| == |m2|
    ensures a + (m1 + b) == a + (m2 + b) <==> m1 == m2
  {
    assert (a + (m1 + b))[|a|..|a| + |m1|] == m1;
    assert (a + (m2 + b))[|a|..|a| + |m2|] == m2;
  }

  // ---------- The length functions ----------

  /** Characters that take a surrogate pair. */
  function Pairs(text: seq<Scalar>): nat {
    if text == [] then 0 else (if text[0] >= SURROGATE_FIRST_VALUE then 1 else 0) + Pairs(text[1..])
  }

  lemma {:induction false} PairsOneMore(text: seq<Scalar>, k: nat)
    requires k < |text|
    ensures Pairs(text[..k + 1]) == Pairs(text[..k]) + if text[k] >= SURROGATE_FIRST_VALUE then 1 else 0
    decreases k
  {
    if k > 0 {
      PairsOneMore(text[1..], k - 1);
      assert text[..k + 1][1..] == text[1..][..k] && text[..k][1..] == text[1..][..k - 1];
    }
  }

  /** A unit read as a signed short and widened to `size_t`; big-endian units are swapped first. */
  function Widen(stored: bv32, isBigEndian: bool): bv64 {
    if isBigEndian then Swap16bit(stored) as bv64
    else if stored & 0x8000 != 0 then (stored as bv64) | 0xFFFF_FFFF_FFFF_0000
    else stored as bv64
  }

  /** The bytes that one unit contributes, and the number of units consumed. */
  function UnitLength(uch: bv64): (nat, nat) {
    if uch < 0x80 then (1, 1)
    else if uch < 0x800 then (2, 1)
    else if 0xD800 <= uch <= 0xDFFF then (4, 2)
    else (3, 1)
  }

  lemma MaskedByte(x: bv32)
    ensures LowByte(x) as bv32 == x & 0xFF
  {
  }

  lemma SwappedUnit(u: bv32)
    requires u < 0x10000
    ensures Swap16bit(((u >> 8) & 0xFF) | ((u & 0xFF) << 8)) == u
  {
  }

  lemma SignExtension(u: bv32)
    requires 0x8000 <= u < 0x10000
    ensures u & 0x8000 != 0 && (u as bv64) | 0xFFFF_FFFF_FFFF_0000 > 0xDFFF
  {
  }

  lemma SwappedRead(u: bv32)
    requires u < 0x10000
    ensures Swap16bit(ReadUnit(UnitBytes(u, true)[0], UnitBytes(u, true)[1], false)) == u
  {
    hide Swap16bit, LowByte;
    SwappedUnit(u);
    MaskedByte(u >> 8);
    MaskedByte(u);
  }

  /** The unit `u` in either byte order, read by the host and widened. */
  lemma WidenedUnit(u: bv32, be: bool)
    requires u < 0x10000
    ensures var b := UnitBytes(u, be);
            var uch := Widen(ReadUnit(b[0], b[1], false), be);
            if be || u < 0x8000 then uch == u as bv64 else uch > 0xDFFF
  {
    hide Swap16bit, LowByte, ReadUnit, UnitBytes;
    if be {
      SwappedRead(u);
    } else {
      ReadUnitBytes(u, false);
      if u >= 0x8000 {
        SignExtension(u);
      }
    }
  }

  lemma CharLengths(v: Scalar, be: bool)
    requires v != 0
    ensures v < SURROGATE_FIRST_VALUE ==>
              var b := UnitBytes(v, be);
              UnitLength(Widen(ReadUnit(b[0], b[1], false), be)) == (|Utf8Char(v)|, 1)
    ensures v >= SURROGATE_FIRST_VALUE ==>
              |Utf8Char(v)| == 4
              && (var b := UnitBytes(LeadOf(v), be);
                  UnitLength(Widen(ReadUnit(b[0], b[1], false), be)) == if be then (4, 2) else (3, 1))
              && (var b := UnitBytes(TrailOf(v), be);
                  !be ==> UnitLength(Widen(ReadUnit(b[0], b[1], false), be)) == (3, 1))
  {
    hide LeadOf, TrailOf, Widen, ReadUnit, UnitBytes, LowByte;
    if v < SURROGATE_FIRST_VALUE {
      WidenedUnit(v, be);
    } else {
      LeadBits(v);
      TrailBits(v);
      WidenedUnit(LeadOf(v), be);
      WidenedUnit(TrailOf(v), be);
    }
  }

  lemma UnitNotZero(u: bv32, be: bool)
    requires u < 0x10000 && u != 0
    ensures var b := UnitBytes(u, be); ReadUnit(b[0], b[1], false) != 0
  {
  }

  /** The host's view of the unit at byte position `p`. */
  function UnitAt(s: seq<bv8>, p: nat): bv32
    requires p + 2 <= |s|
  {
    ReadUnit(s[p], s[p + 1], false)
  }

  /** The first or, for a pair, second unit of character `k` of the text, as the loop below sees it. */
  lemma UnitOfChar(s: seq<bv8>, text: seq<Scalar>, k: nat, be: bool, second: bool)
    requires Utf16(text, be) <= s && k < |text| && text[k] != 0
    requires second ==> text[k] >= SURROGATE_FIRST_VALUE
    ensures var p := |Utf16(text[..k], be)| + if second then 2 else 0;
            var v := text[k];
            && p + 2 <= |Utf16(text, be)| && UnitAt(s, p) != 0
            && UnitLength(Widen(UnitAt(s, p), be)) ==
               if v < SURROGATE_FIRST_VALUE then (|Utf8Char(v)|, 1)
               else if be && !second then (4, 2)
               else if be then UnitLength(Widen(UnitAt(s, p), be)) else (3, 1)
    ensures text[k] >= SURROGATE_FIRST_VALUE ==> |Utf8Char(text[k])| == 4
  {
    hide LeadOf, TrailOf, Widen, ReadUnit, UnitBytes, UnitLength, Utf8Char, Utf16;
    var v, c, p := text[k], Utf16Char(text[k], be), |Utf16(text[..k], be)|;
    CharAt(text, k, be);
    CharLengths(v, be);
    var t := Utf16(text, be);
    assert forall i: nat :: i < |t| ==> s[i] == t[i];
    assert t[p] == t[p..p + |c|][0] && t[p + 1] == t[p..p + |c|][1];
    if v < SURROGATE_FIRST_VALUE {
      UnitNotZero(v, be);
    } else {
      assert t[p + 2] == t[p..p + |c|][2] && t[p + 3] == t[p..p + |c|][3];
      LeadBits(v);
      TrailBits(v);
      UnitNotZero(LeadOf(v), be);
      UnitNotZero(TrailOf(v), be);
    }
  }

  lemma CharGrows(text: seq<Scalar>, k: nat, be: bool)
    requires k < |text|
    ensures |Utf8(text[..k + 1])| == |Utf8(text[..k])| + |Utf8Char(text[k])|
    ensures |Utf16(text[..k + 1], be)| == |Utf16(text[..k], be)| + |Utf16Char(text[k], be)|
    ensures Pairs(text[..k + 1]) == Pairs(text[..k]) + if text[k] >= SURROGATE_FIRST_VALUE then 1 else 0
  {
    hide Utf8Char, Utf16Char;
    assert text[..k + 1] == text[..k] + [text[k]];
    Utf8Append(text[..k], [text[k]]);
    Utf16Append(text[..k], [text[k]], be);
    Utf8One(text[k]);
    Utf16One(text[k], be);
    PairsOneMore(text, k);
  }

  /**
    The UTF-8 length of NUL-free text.  Little-endian surrogates are negative as signed shorts
    and count three bytes each, so there every pair is counted two bytes too long.
  */
  method Utf8LengthFromUtf16(utf16In: seq<bv8>, inLen: nat, isBigEndian: bool, ghost text: seq<Scalar>)
    returns (len: nat)
    requires Utf16(text, isBigEndian) <= utf16In && inLen == |Utf16(text, isBigEndian)|
    requires 0 !in text
    ensures len == |Utf8(text)| + if isBigEndian then 0 else 2 * Pairs(text)
  {
    hide Utf8, Utf16, Utf8Char, UnitLength, Widen, UnitAt, Pairs;
    len := 0;
    var wcharLen, i := inLen / 2, 0;
    ghost var k, second := 0, false;
    EmptyLengths(text, isBigEndian);
    assert text[..|text|] == text;
    while i < wcharLen && UnitAt(utf16In, 2 * i) != 0
      invariant k <= |text|
      invariant second ==> !isBigEndian && k < |text| && text[k] >= SURROGATE_FIRST_VALUE
      invariant 2 * i == |Utf16(text[..k], isBigEndian)| + if second then 2 else 0
      invariant len == |Utf8(text[..k])| + (if isBigEndian then 0 else 2 * Pairs(text[..k]))
                       + if second then 3 else 0
      decreases wcharLen - i
    {
      assert k < |text|;
      UnitOfChar(utf16In, text, k, isBigEndian, second);
      CharGrows(text, k, isBigEndian);
      var (bytes, units) := UnitLength(Widen(UnitAt(utf16In, 2 * i), isBigEndian));
      len := len + bytes;
      i := i + units;
      if text[k] < SURROGATE_FIRST_VALUE || isBigEndian || second {
        k, second := k + 1, false;
      } else {
        second := true;
      }
    }
    if k < |text| {
      UnitOfChar(utf16In, text, k, isBigEndian, second);
      assert false;
    }
  }

  /** U+1F600 in little-endian is counted as six bytes; it has four. */
  lemma PairCountsSix()
    ensures var text: seq<Scalar> := [0x1F600];
            |Utf8(text)| + 2 * Pairs(text) == 6 && |Utf8(text)| == 4
    ensures var (b, c) := (UnitBytes(LeadOf(0x1F600), false), UnitBytes(TrailOf(0x1F600), false));
            UnitLength(Widen(ReadUnit(b[0], b[1], false), false)).0
            + UnitLength(Widen(ReadUnit(c[0], c[1], false), false)).0 == 6
  {
    hide Utf8Char, Widen, ReadUnit, UnitBytes, LeadOf, TrailOf;
    var text: seq<Scalar> := [0x1F600];
    Utf8One(0x1F600);
    CharLengths(0x1F600, false);
    assert text[1..] == [] && Pairs(text[1..]) == 0;
  }

  lemma EmptyLengths(text: seq<Scalar>, be: bool)
    ensures |Utf8(text[..0])| == |Utf16(text[..0], be)| == Pairs(text[..0]) == 0
  {
  }

  lemma FirstByteTells(v: Scalar)
    ensures var ch := Utf8Char(v)[0];
            |Utf8Char(v)| == if ch < 0x80 then 1 else if ch < 0x80 + 0x40 + 0x20 then 2
                             else if ch < 0x80 + 0x40 + 0x20 + 0x10 then 3 else 4
    ensures v >= SURROGATE_FIRST_VALUE <==> |Utf8Char(v)| == 4
  {
  }

  /** The number of bytes the UTF-16 form of the text takes. */
  method Utf16LengthFromUtf8(utf8In: seq<bv8>, ghost text: seq<Scalar>) returns (bytes: nat)
    requires utf8In == Utf8(text)
    ensures forall be :: bytes == |Utf16(text, be)|
  {
    hide Utf8, Utf16, Utf8Char, Utf16Char;
    var ulen, i := 0, 0;
    ghost var k := 0;
    EmptyLengths(text, true);
    EmptyLengths(text, false);
    assert text[..|text|] == text;
    while i < |utf8In|
      invariant k <= |text| && i == |Utf8(text[..k])|
      invariant forall be :: 2 * ulen == |Utf16(text[..k], be)|
      decreases |text| - k
    {
      assert k < |text|;
      CharGrows(text, k, true);
      CharGrows(text, k, false);
      Utf8CharAt(text, k);
      FirstByteTells(text[k]);
      var ch := utf8In[i];
      var charLen;
      if ch < 0x80 {
        charLen := 1;
      } else if ch < 0x80 + 0x40 + 0x20 {
        charLen := 2;
      } else if ch < 0x80 + 0x40 + 0x20 + 0x10 {
        charLen := 3;
      } else {
        charLen := 4;
        ulen := ulen + 1;
      }
      i := i + charLen;
      ulen := ulen + 1;
      k := k + 1;
    }
    Utf8Longer(text, k);
    return ulen * 2;
  }

  lemma Utf8CharAt(text: seq<Scalar>, k: nat)
    requires k < |text|
    ensures |Utf8(text[..k])| < |Utf8(text)| && Utf8(text)[|Utf8(text[..k])|] == Utf8Char(text[k])[0]
  {
    hide Utf8Char;
    assert text == text[..k] + ([text[k]] + text[k + 1..]);
    Utf8Append(text[..k], [text[k]] + text[k + 1..]);
    Utf8Append([text[k]], text[k + 1..]);
    Utf8One(text[k]);
  }

  lemma Utf8Longer(text: seq<Scalar>, k: nat)
    requires k <= |text| && |Utf8(text[..k])| >= |Utf8(text)|
    ensures k == |text|
  {
    if k < |text| {
      Utf8CharAt(text, k);
    }
  }

  lemma {:induction false} NoPairsIff(text: seq<Scalar>)
    ensures Pairs(text) == 0 <==> forall i :: 0 <= i < |text| ==> text[i] < SURROGATE_FIRST_VALUE
    decreases |text|
  {
    if text != [] {
      NoPairsIff(text[1..]);
      assert forall i :: 1 <= i < |text| ==> text[i] == text[1..][i - 1];
    }
  }

  // ---------- The library entry point ----------

  /** The number of units before the terminating NUL. */
  method Utf16Len(utf16In: seq<bv8>, ghost text: seq<Scalar>) returns (length: nat)
    requires utf16In == Utf16(text, false) + [0, 0] && 0 !in text
    ensures 2 * length == |Utf16(text, false)|
  {
    hide Utf8, Utf16, UnitAt, UnitLength, Widen;
    length := 0;
    ghost var k, second := 0, false;
    EmptyLengths(text, false);
    assert text[..|text|] == text;
    ghost var end := |Utf16(text, false)|;
    assert UnitAt(utf16In, end) == 0 by { NulUnit(utf16In, end); }
    while UnitAt(utf16In, 2 * length) != 0
      invariant k <= |text| && 2 * length <= end
      invariant second ==> k < |text| && text[k] >= SURROGATE_FIRST_VALUE
      invariant 2 * length == |Utf16(text[..k], false)| + if second then 2 else 0
      decreases end - 2 * length
    {
      assert k < |text|;
      UnitOfChar(utf16In, text, k, false, second);
      CharGrows(text, k, false);
      CharFits(text, k, false);
      length := length + 1;
      if text[k] < SURROGATE_FIRST_VALUE || second {
        k, second := k + 1, false;
      } else {
        second := true;
      }
    }
    if k < |text| {
      UnitOfChar(utf16In, text, k, false, second);
      assert false;
    }
  }

  lemma NulUnit(s: seq<bv8>, p: nat)
    requires p + 2 <= |s| && s[p] == 0 && s[p + 1] == 0
    ensures UnitAt(s, p) == 0
  {
  }

  lemma CharFits(text: seq<Scalar>, k: nat, be: bool)
    requires k < |text|
    ensures |Utf16(text[..k + 1], be)| <= |Utf16(text, be)|
  {
    CharAt(text, k, be);
  }

  /**
    A NUL-terminated string of the host's byte order.  The result is the complete UTF-8 form and
    a NUL; the buffer reserved for it is too large by two bytes for each surrogate pair.
  */
  method ConvertUtf16ToUtf8(converter: Converter, utf16In: seq<bv8>, ghost text: seq<Scalar>)
    returns (utf8Out: seq<bv8>, utf8Size: nat)
    requires utf16In == Utf16(text, false) + [0, 0] && 0 !in text
    modifies converter
    ensures utf8Out == Utf8(text) + [0]
    ensures utf8Size == |utf8Out| + 2 * Pairs(text)
  {
    hide Utf8, Utf16, Pairs, FirstOfLast;
    var length := Utf16Len(utf16In, text);
    var dataSize := length * 2;
    var size := Utf8LengthFromUtf16(utf16In, dataSize, false, text);
    utf8Size := size + 1;
    ghost var whole: seq<Scalar> := text + [0];
    Utf16Append(text, [0], false);
    NulForms();
    assert whole[..|whole| - 1] == text;
    utf8Out := converter.Utf16ToUtf8(utf16In, dataSize + 1, false, true, whole);
    RoundTrip(text, false);
  }

  lemma NulForms()
    ensures Utf16([0], false) == [0, 0] && Rest(Start, 0) == []
  {
    Utf16One(0, false);
  }
}
