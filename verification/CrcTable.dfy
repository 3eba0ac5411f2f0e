/** The 16-bit checksum: a table lookup for each byte. */
module CrcTable {

  function Row0(lo: bv8): bv16 {
    match lo
    case 0 => 0x0000 case 1 => 0x1021 case 2 => 0x2042 case 3 => 0x3063
    case 4 => 0x4084 case 5 => 0x50a5 case 6 => 0x60c6 case 7 => 0x70e7
    case 8 => 0x8108 case 9 => 0x9129 case 10 => 0xa14a case 11 => 0xb16b
    case 12 => 0xc18c case 13 => 0xd1ad case 14 => 0xe1ce case _ => 0xf1ef
  }

  function Row1(lo: bv8): bv16 {
    match lo
    case 0 => 0x1231 case 1 => 0x0210 case 2 => 0x3273 case 3 => 0x2252
    case 4 => 0x52b5 case 5 => 0x4294 case 6 => 0x72f7 case 7 => 0x62d6
    case 8 => 0x9339 case 9 => 0x8318 case 10 => 0xb37b case 11 => 0xa35a
    case 12 => 0xd3bd case 13 => 0xc39c case 14 => 0xf3ff case _ => 0xe3de
  }

  function Row2(lo: bv8): bv16 {
    match lo
    case 0 => 0x2462 case 1 => 0x3443 case 2 => 0x0420 case 3 => 0x1401
    case 4 => 0x64e6 case 5 => 0x74c7 case 6 => 0x44a4 case 7 => 0x5485
    case 8 => 0xa56a case 9 => 0xb54b case 10 => 0x8528 case 11 => 0x9509
    case 12 => 0xe5ee case 13 => 0xf5cf case 14 => 0xc5ac case _ => 0xd58d
  }

  function Row3(lo: bv8): bv16 {
    match lo
    case 0 => 0x3653 case 1 => 0x2672 case 2 => 0x1611 case 3 => 0x0630
    case 4 => 0x76d7 case 5 => 0x66f6 case 6 => 0x5695 case 7 => 0x46b4
    case 8 => 0xb75b case 9 => 0xa77a case 10 => 0x9719 case 11 => 0x8738
    case 12 => 0xf7df case 13 => 0xe7fe case 14 => 0xd79d case _ => 0xc7bc
  }

  function Row4(lo: bv8): bv16 {
    match lo
    case 0 => 0x48c4 case 1 => 0x58e5 case 2 => 0x6886 case 3 => 0x78a7
    case 4 => 0x0840 case 5 => 0x1861 case 6 => 0x2802 case 7 => 0x3823
    case 8 => 0xc9cc case 9 => 0xd9ed case 10 => 0xe98e case 11 => 0xf9af
    case 12 => 0x8948 case 13 => 0x9969 case 14 => 0xa90a case _ => 0xb92b
  }

  function Row5(lo: bv8): bv16 {
    match lo
    case 0 => 0x5af5 case 1 => 0x4ad4 case 2 => 0x7ab7 case 3 => 0x6a96
    case 4 => 0x1a71 case 5 => 0x0a50 case 6 => 0x3a33 case 7 => 0x2a12
    case 8 => 0xdbfd case 9 => 0xcbdc case 10 => 0xfbbf case 11 => 0xeb9e
    case 12 => 0x9b79 case 13 => 0x8b58 case 14 => 0xbb3b case _ => 0xab1a
  }

  function Row6(lo: bv8): bv16 {
    match lo
    case 0 => 0x6ca6 case 1 => 0x7c87 case 2 => 0x4ce4 case 3 => 0x5cc5
    case 4 => 0x2c22 case 5 => 0x3c03 case 6 => 0x0c60 case 7 => 0x1c41
    case 8 => 0xedae case 9 => 0xfd8f case 10 => 0xcdec case 11 => 0xddcd
    case 12 => 0xad2a case 13 => 0xbd0b case 14 => 0x8d68 case _ => 0x9d49
  }

  function Row7(lo: bv8): bv16 {
    match lo
    case 0 => 0x7e97 case 1 => 0x6eb6 case 2 => 0x5ed5 case 3 => 0x4ef4
    case 4 => 0x3e13 case 5 => 0x2e32 case 6 => 0x1e51 case 7 => 0x0e70
    case 8 => 0xff9f case 9 => 0xefbe case 10 => 0xdfdd case 11 => 0xcffc
    case 12 => 0xbf1b case 13 => 0xaf3a case 14 => 0x9f59 case _ => 0x8f78
  }

  function Row8(lo: bv8): bv16 {
    match lo
    case 0 => 0x9188 case 1 => 0x81a9 case 2 => 0xb1ca case 3 => 0xa1eb
    case 4 => 0xd10c case 5 => 0xc12d case 6 => 0xf14e case 7 => 0xe16f
    case 8 => 0x1080 case 9 => 0x00a1 case 10 => 0x30c2 case 11 => 0x20e3
    case 12 => 0x5004 case 13 => 0x4025 case 14 => 0x7046 case _ => 0x6067
  }

  function Row9(lo: bv8): bv16 {
    match lo
    case 0 => 0x83b9 case 1 => 0x9398 case 2 => 0xa3fb case 3 => 0xb3da
    case 4 => 0xc33d case 5 => 0xd31c case 6 => 0xe37f case 7 => 0xf35e
    case 8 => 0x02b1 case 9 => 0x1290 case 10 => 0x22f3 case 11 => 0x32d2
    case 12 => 0x4235 case 13 => 0x5214 case 14 => 0x6277 case _ => 0x7256
  }

  function Row10(lo: bv8): bv16 {
    match lo
    case 0 => 0xb5ea case 1 => 0xa5cb case 2 => 0x95a8 case 3 => 0x8589
    case 4 => 0xf56e case 5 => 0xe54f case 6 => 0xd52c case 7 => 0xc50d
    case 8 => 0x34e2 case 9 => 0x24c3 case 10 => 0x14a0 case 11 => 0x0481
    case 12 => 0x7466 case 13 => 0x6447 case 14 => 0x5424 case _ => 0x4405
  }

  function Row11(lo: bv8): bv16 {
    match lo
    case 0 => 0xa7db case 1 => 0xb7fa case 2 => 0x8799 case 3 => 0x97b8
    case 4 => 0xe75f case 5 => 0xf77e case 6 => 0xc71d case 7 => 0xd73c
    case 8 => 0x26d3 case 9 => 0x36f2 case 10 => 0x0691 case 11 => 0x16b0
    case 12 => 0x6657 case 13 => 0x7676 case 14 => 0x4615 case _ => 0x5634
  }

  function Row12(lo: bv8): bv16 {
    match lo
    case 0 => 0xd94c case 1 => 0xc96d case 2 => 0xf90e case 3 => 0xe92f
    case 4 => 0x99c8 case 5 => 0x89e9 case 6 => 0xb98a case 7 => 0xa9ab
    case 8 => 0x5844 case 9 => 0x4865 case 10 => 0x7806 case 11 => 0x6827
    case 12 => 0x18c0 case 13 => 0x08e1 case 14 => 0x3882 case _ => 0x28a3
  }

  function Row13(lo: bv8): bv16 {
    match lo
    case 0 => 0xcb7d case 1 => 0xdb5c case 2 => 0xeb3f case 3 => 0xfb1e
    case 4 => 0x8bf9 case 5 => 0x9bd8 case 6 => 0xabbb case 7 => 0xbb9a
    case 8 => 0x4a75 case 9 => 0x5a54 case 10 => 0x6a37 case 11 => 0x7a16
    case 12 => 0x0af1 case 13 => 0x1ad0 case 14 => 0x2ab3 case _ => 0x3a92
  }

  function Row14(lo: bv8): bv16 {
    match lo
    case 0 => 0xfd2e case 1 => 0xed0f case 2 => 0xdd6c case 3 => 0xcd4d
    case 4 => 0xbdaa case 5 => 0xad8b case 6 => 0x9de8 case 7 => 0x8dc9
    case 8 => 0x7c26 case 9 => 0x6c07 case 10 => 0x5c64 case 11 => 0x4c45
    case 12 => 0x3ca2 case 13 => 0x2c83 case 14 => 0x1ce0 case _ => 0x0cc1
  }

  function Row15(lo: bv8): bv16 {
    match lo
    case 0 => 0xef1f case 1 => 0xff3e case 2 => 0xcf5d case 3 => 0xdf7c
    case 4 => 0xaf9b case 5 => 0xbfba case 6 => 0x8fd9 case 7 => 0x9ff8
    case 8 => 0x6e17 case 9 => 0x7e36 case 10 => 0x4e55 case 11 => 0x5e74
    case 12 => 0x2e93 case 13 => 0x3eb2 case 14 => 0x0ed1 case _ => 0x1ef0
  }

  /** crctable[ind]: row ind / 16, entry ind % 16. */
  function Entry(ind: bv8): bv16 {
    var lo := ind & 0xf;
    match ind >> 4
    case 0 => Row0(lo) case 1 => Row1(lo) case 2 => Row2(lo) case 3 => Row3(lo)
    case 4 => Row4(lo) case 5 => Row5(lo) case 6 => Row6(lo) case 7 => Row7(lo)
    case 8 => Row8(lo) case 9 => Row9(lo) case 10 => Row10(lo) case 11 => Row11(lo)
    case 12 => Row12(lo) case 13 => Row13(lo) case 14 => Row14(lo) case _ => Row15(lo)
  }

  /** Times x, modulo x^16 + x^12 + x^5 + 1: the coefficients of the remainder, that of x^15 first. */
  function TimesX(c: bv16): bv16 {
    if c & 0x8000 != 0 then (c << 1) ^ 0x1021 else c << 1
  }

  /** Times x^8. */
  function TimesX8(c: bv16): bv16 {
    TimesX(TimesX(TimesX(TimesX(TimesX(TimesX(TimesX(TimesX(c))))))))
  }

  /** Entry ind is the remainder of ind times x^16. */
  lemma EntryIsRemainder(ind: bv8)
    ensures Entry(ind) == TimesX8((ind as bv16) << 8)
  {
  }

  // ----- multiplication by x

  /** Coefficients are added modulo 2. */
  function Sum(a: bv16, b: bv16): bv16 { a ^ b }

  function Up(a: bv16): bv16 { a << 1 }

  /** What is subtracted when x^16 appears. */
  function Subtracted(c: bv16): bv16 {
    if c & 0x8000 != 0 then 0x1021 else 0
  }

  lemma SumFacts(p: bv16, q: bv16, r: bv16, s: bv16)
    ensures Sum(Sum(p, q), Sum(r, s)) == Sum(Sum(p, r), Sum(q, s))
    ensures Sum(Sum(p, q), r) == Sum(p, Sum(q, r)) && Sum(p, q) == Sum(q, p)
    ensures Sum(p, 0) == p && Sum(p, p) == 0 && (Sum(p, q) == 0 ==> p == q)
  {
  }

  lemma UpOfSum(a: bv16, b: bv16)
    ensures Up(Sum(a, b)) == Sum(Up(a), Up(b))
  {
  }

  lemma TimesXIs(c: bv16)
    ensures TimesX(c) == Sum(Up(c), Subtracted(c))
  {
    if c & 0x8000 == 0 {
      assert TimesX(c) == c << 1;
    }
  }

  lemma TopBit(a: bv16, b: bv16)
    ensures (a ^ b) & 0x8000 == (a & 0x8000) ^ (b & 0x8000)
    ensures a & 0x8000 == 0 || a & 0x8000 == 0x8000
  {
  }

  lemma SubtractedLinear(a: bv16, b: bv16)
    ensures Subtracted(Sum(a, b)) == Sum(Subtracted(a), Subtracted(b))
  {
    TopBit(a, b);
    TopBit(b, a);
  }

  lemma TimesXLinear(a: bv16, b: bv16)
    ensures TimesX(Sum(a, b)) == Sum(TimesX(a), TimesX(b))
  {
    hide TimesX, Subtracted, Sum, Up;
    TimesXIs(a);
    TimesXIs(b);
    TimesXIs(Sum(a, b));
    SubtractedLinear(a, b);
    UpOfSum(a, b);
    SumFacts(Up(a), Up(b), Subtracted(a), Subtracted(b));
  }

  lemma TimesX2Linear(a: bv16, b: bv16)
    ensures TimesX(TimesX(Sum(a, b))) == Sum(TimesX(TimesX(a)), TimesX(TimesX(b)))
  {
    hide TimesX, Sum;
    TimesXLinear(a, b);
    TimesXLinear(TimesX(a), TimesX(b));
  }

  lemma TimesX4Linear(a: bv16, b: bv16)
    ensures TimesX(TimesX(TimesX(TimesX(Sum(a, b)))))
      == Sum(TimesX(TimesX(TimesX(TimesX(a)))), TimesX(TimesX(TimesX(TimesX(b)))))
  {
    hide TimesX, Sum;
    TimesX2Linear(a, b);
    TimesX2Linear(TimesX(TimesX(a)), TimesX(TimesX(b)));
  }

  lemma TimesX8Linear(a: bv16, b: bv16)
    ensures TimesX8(Sum(a, b)) == Sum(TimesX8(a), TimesX8(b))
  {
    hide TimesX, Sum;
    TimesX4Linear(a, b);
    TimesX4Linear(TimesX(TimesX(TimesX(TimesX(a)))), TimesX(TimesX(TimesX(TimesX(b)))));
  }

  lemma TimesXZero(c: bv16)
    ensures TimesX(c) == 0 ==> c == 0
  {
  }

  lemma TimesX8Zero(c: bv16)
    ensures TimesX8(c) == 0 ==> c == 0
  {
    hide TimesX;
    var c1 := TimesX(c); var c2 := TimesX(c1); var c3 := TimesX(c2); var c4 := TimesX(c3);
    var c5 := TimesX(c4); var c6 := TimesX(c5); var c7 := TimesX(c6);
    TimesXZero(c); TimesXZero(c1); TimesXZero(c2); TimesXZero(c3);
    TimesXZero(c4); TimesXZero(c5); TimesXZero(c6); TimesXZero(c7);
  }

  /** Nothing is lost: the generator does not divide x^8. */
  lemma TimesX8Injective(a: bv16, b: bv16)
    requires TimesX8(a) == TimesX8(b)
    ensures a == b
  {
    hide TimesX8, Sum;
    TimesX8Linear(a, b);
    SumFacts(TimesX8(a), TimesX8(b), 0, 0);
    TimesX8Zero(Sum(a, b));
    SumFacts(a, b, 0, 0);
  }

  // ----- long division

  function Low(bit: bool): bv16 { if bit then 1 else 0 }

  /** r holds the leading 16 coefficients of what is left; the next coefficient comes in below, and if x^16
      appears the generator is subtracted. */
  function Divided(r: bv16, bit: bool): bv16 {
    var next := Up(r) | Low(bit);
    if r & 0x8000 != 0 then Sum(next, 0x1021) else next
  }

  /** Remainder of r * x^|bits| + bits. */
  function Remainder(r: bv16, bits: seq<bool>): bv16
    decreases |bits|
  {
    if bits == [] then r else Remainder(Divided(r, bits[0]), bits[1..])
  }

  /** The bits of a byte, the highest first. */
  function BitsOf(b: bv8): seq<bool> {
    [b & 0x80 != 0, b & 0x40 != 0, b & 0x20 != 0, b & 0x10 != 0, b & 8 != 0, b & 4 != 0, b & 2 != 0, b & 1 != 0]
  }

  function Bits(data: seq<bv8>): seq<bool> {
    if data == [] then [] else BitsOf(data[0]) + Bits(data[1..])
  }

  lemma LowestBit(r: bv16)
    ensures (r << 1) | 1 == (r << 1) ^ 1 && (r << 1) | 0 == (r << 1) ^ 0
  {
  }

  lemma Below(r: bv16, bit: bool)
    ensures Up(r) | Low(bit) == Sum(Up(r), Low(bit))
  {
    LowestBit(r);
    if bit {
      assert Low(bit) == 1;
    } else {
      assert Low(bit) == 0;
    }
  }

  lemma DividedIs(r: bv16, bit: bool)
    ensures Divided(r, bit) == Sum(TimesX(r), Low(bit))
  {
    hide Up, Low, Sum, TimesX;
    Below(r, bit);
    TimesXIs(r);
    var next := Sum(Up(r), Low(bit));
    SumFacts(next, 0, 0, 0);
    assert Divided(r, bit) == Sum(next, Subtracted(r));
    Swap(Up(r), Low(bit), Subtracted(r));
  }

  lemma Swap(p: bv16, q: bv16, r: bv16)
    ensures Sum(Sum(p, q), r) == Sum(Sum(p, r), q)
  {
  }

  lemma NoCarry(p: bv16)
    requires p < 0x8000
    ensures TimesX(p) == Up(p)
  {
  }

  /** Low coefficients just move up. */
  lemma DividedStep(x: bv16, p: bv16, bit: bool)
    requires p < 0x8000
    ensures Divided(Sum(x, p), bit) == Sum(TimesX(x), Sum(Up(p), Low(bit)))
  {
    hide TimesX, Divided, Low, Sum, Up;
    DividedIs(Sum(x, p), bit);
    TimesXLinear(x, p);
    NoCarry(p);
    SumFacts(TimesX(x), Up(p), Low(bit), 0);
  }

  /** The highest k bits of a byte, one after the other. */
  lemma BitByBit(b: bv8)
    ensures Sum(Up(0), Low(b & 0x80 != 0)) == (b >> 7) as bv16
    ensures Sum(Up((b >> 7) as bv16), Low(b & 0x40 != 0)) == (b >> 6) as bv16
    ensures Sum(Up((b >> 6) as bv16), Low(b & 0x20 != 0)) == (b >> 5) as bv16
    ensures Sum(Up((b >> 5) as bv16), Low(b & 0x10 != 0)) == (b >> 4) as bv16
    ensures Sum(Up((b >> 4) as bv16), Low(b & 8 != 0)) == (b >> 3) as bv16
    ensures Sum(Up((b >> 3) as bv16), Low(b & 4 != 0)) == (b >> 2) as bv16
    ensures Sum(Up((b >> 2) as bv16), Low(b & 2 != 0)) == (b >> 1) as bv16
    ensures Sum(Up((b >> 1) as bv16), Low(b & 1 != 0)) == b as bv16
    ensures (b as bv16) < 0x8000 && ((b >> 1) as bv16) < 0x8000 && ((b >> 2) as bv16) < 0x8000
      && ((b >> 3) as bv16) < 0x8000
    ensures ((b >> 4) as bv16) < 0x8000 && ((b >> 5) as bv16) < 0x8000 && ((b >> 6) as bv16) < 0x8000
      && ((b >> 7) as bv16) < 0x8000
  {
  }

  lemma FirstBits(r: bv16, bits: seq<bool>, rest: seq<bool>)
    requires bits != []
    ensures Remainder(r, bits + rest) == Remainder(Divided(r, bits[0]), bits[1..] + rest)
  {
    assert (bits + rest)[1..] == bits[1..] + rest;
  }

  /** Dividing over the bits of a byte. */
  lemma RemainderOfByte(r: bv16, b: bv8, rest: seq<bool>)
    ensures Remainder(r, BitsOf(b) + rest) == Remainder(Sum(TimesX8(r), b as bv16), rest)
  {
    hide TimesX, Divided, Low, Sum, Up;
    BitByBit(b);
    SumFacts(r, 0, 0, 0);
    var x1 := TimesX(r); var x2 := TimesX(x1); var x3 := TimesX(x2); var x4 := TimesX(x3);
    var x5 := TimesX(x4); var x6 := TimesX(x5); var x7 := TimesX(x6);
    var s := BitsOf(b);
    DividedStep(r, 0, s[0]);
    DividedStep(x1, (b >> 7) as bv16, s[1]);
    DividedStep(x2, (b >> 6) as bv16, s[2]);
    DividedStep(x3, (b >> 5) as bv16, s[3]);
    DividedStep(x4, (b >> 4) as bv16, s[4]);
    DividedStep(x5, (b >> 3) as bv16, s[5]);
    DividedStep(x6, (b >> 2) as bv16, s[6]);
    DividedStep(x7, (b >> 1) as bv16, s[7]);
    FirstBits(r, s, rest);
    FirstBits(Sum(x1, (b >> 7) as bv16), s[1..], rest);
    FirstBits(Sum(x2, (b >> 6) as bv16), s[2..], rest);
    FirstBits(Sum(x3, (b >> 5) as bv16), s[3..], rest);
    FirstBits(Sum(x4, (b >> 4) as bv16), s[4..], rest);
    FirstBits(Sum(x5, (b >> 3) as bv16), s[5..], rest);
    FirstBits(Sum(x6, (b >> 2) as bv16), s[6..], rest);
    FirstBits(Sum(x7, (b >> 1) as bv16), s[7..], rest);
    assert s[1..][1..] == s[2..] && s[2..][1..] == s[3..] && s[3..][1..] == s[4..] && s[4..][1..] == s[5..]
      && s[5..][1..] == s[6..] && s[6..][1..] == s[7..] && s[7..][1..] + rest == rest;
  }
}
