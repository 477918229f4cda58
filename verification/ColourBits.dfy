/** The colours as bits of the byte `marked` (lgc.h): every test and every change the collector
    makes on the byte does to the colour what its name says, and leaves the fixed bit alone. */
module ColourBits {
  import opened GcHeap

  const WHITE0BIT: bv8 := 1
  const WHITE1BIT: bv8 := 2
  const BLACKBIT: bv8 := 4
  const FIXEDBIT: bv8 := 32
  const WHITEBITS: bv8 := 3

  /** maskmarks. */
  const MASKMARKS: bv8 := 0xF8

  function Bits(c: Colour): bv8 {
    match c
    case White0 => WHITE0BIT
    case White1 => WHITE1BIT
    case Gray => 0
    case Black => BLACKBIT
  }

  /** The byte m stands for the colour c of an object that is fixed or not. */
  predicate Encodes(m: bv8, c: Colour, fixed: bool) {
    && m & 7 == (match c case White0 => 1 case White1 => 2 case Gray => 0 case Black => 4)
    && (m & 32 != 0) == fixed
  }

  /** The byte currentwhite of the global state: it also holds the fixed bit. */
  function CurrentWhite(cw: Colour): bv8 {
    Bits(cw) | FIXEDBIT
  }

  predicate IsWhiteBits(m: bv8) {
    m & WHITEBITS != 0
  }

  predicate IsBlackBits(m: bv8) {
    m & BLACKBIT != 0
  }

  predicate IsGrayBits(m: bv8) {
    !IsBlackBits(m) && !IsWhiteBits(m)
  }

  function OtherWhiteBits(cw: bv8): bv8 {
    cw ^ WHITEBITS
  }

  predicate IsDeadBits(m: bv8, cw: bv8) {
    m & OtherWhiteBits(cw) & WHITEBITS != 0
  }

  /** The test of sweeplist: one mask for what is dead and what is fixed. */
  predicate Survives(m: bv8, deadmask: bv8) {
    (m ^ WHITEBITS) & deadmask != 0
  }

  function MakeWhite(m: bv8, cw: bv8): bv8 {
    (m & MASKMARKS) | (cw & WHITEBITS)
  }

  function ChangeWhite(m: bv8): bv8 {
    m ^ WHITEBITS
  }

  function White2Gray(m: bv8): bv8 {
    m & !WHITEBITS
  }

  function Gray2Black(m: bv8): bv8 {
    m | BLACKBIT
  }

  function Black2Gray(m: bv8): bv8 {
    m & !BLACKBIT
  }

  /** The tests. */
  lemma Tests(m: bv8, c: Colour, fixed: bool, cw: Colour)
    requires Encodes(m, c, fixed) && IsWhite(cw)
    ensures IsWhiteBits(m) <==> IsWhite(c)
    ensures IsBlackBits(m) <==> c.Black?
    ensures IsGrayBits(m) <==> c.Gray?
    ensures IsDeadBits(m, CurrentWhite(cw)) <==> Dead(c, cw)
    ensures Survives(m, OtherWhiteBits(CurrentWhite(cw))) <==> !Dead(c, cw) || fixed
  {
    match c {
      case White0 => assert m & 7 == 1;
      case White1 => assert m & 7 == 2;
      case Gray => assert m & 7 == 0;
      case Black => assert m & 7 == 4;
    }
    assert cw == White0 || cw == White1;
  }

  /** The changes. */
  lemma Changes(m: bv8, c: Colour, fixed: bool, cw: Colour)
    requires Encodes(m, c, fixed) && IsWhite(cw)
    ensures Encodes(MakeWhite(m, CurrentWhite(cw)), cw, fixed)
    ensures IsWhite(c) ==> Encodes(White2Gray(m), Gray, fixed) && Encodes(ChangeWhite(m), OtherWhite(c), fixed)
    ensures c.Gray? ==> Encodes(Gray2Black(m), Black, fixed)
    ensures c.Black? ==> Encodes(Black2Gray(m), Gray, fixed)
    ensures OtherWhiteBits(CurrentWhite(cw)) == CurrentWhite(OtherWhite(cw))
  {
    match c {
      case White0 => assert m & 7 == 1;
      case White1 => assert m & 7 == 2;
      case Gray => assert m & 7 == 0;
      case Black => assert m & 7 == 4;
    }
    assert cw == White0 || cw == White1;
  }
}
