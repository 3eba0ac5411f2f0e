/** The checksum of a byte string, and what it detects. */
module Crc {
  import opened CrcTable

  const CRC_INIT_VALUE: bv16 := 0xffff
  const CRC_XOR_VALUE: bv16 := 0x0000

  /** One byte: crctable[(crc >> 8) ^ data] added to crc << 8. */
  function ProcessByte(crcvalue: bv16, data: bv8): bv16 {
    Sum(crcvalue << 8, Entry(((crcvalue >> 8) as bv8) ^ data))
  }

  function Process(crcvalue: bv16, data: seq<bv8>): bv16
    decreases |data|
  {
    if data == [] then crcvalue else ProcessByte(Process(crcvalue, data[..|data| - 1]), data[|data| - 1])
  }

  method ProcessString(data: seq<bv8>) returns (crc: bv16)
    ensures crc == Process(CRC_INIT_VALUE, data)
  {
    var crcvalue := CRC_INIT_VALUE;
    for i := 0 to |data|
      invariant crcvalue == Process(CRC_INIT_VALUE, data[..i])
    {
      assert data[..i + 1][..i] == data[..i];
      var ind := ((crcvalue >> 8) as bv8) ^ data[i];
      crcvalue := Sum(crcvalue << 8, Entry(ind));
    }
    assert data[..|data|] == data;
    crc := crcvalue ^ CRC_XOR_VALUE;
  }

  // ----- the table does what dividing bit by bit does

  /** A byte entering at the top. */
  function High(b: bv8): bv16 { (b as bv16) << 8 }

  function HighPart(c: bv16): bv8 { (c >> 8) as bv8 }

  function LowPart(c: bv16): bv16 { c & 0xff }

  lemma TwoParts(c: bv16, b: bv8)
    ensures c == Sum(High(HighPart(c)), LowPart(c)) && c << 8 == LowPart(c) << 8
    ensures High(HighPart(c) ^ b) == Sum(High(HighPart(c)), High(b)) && LowPart(c) < 0x100
  {
  }

  lemma LowMovesUp(p: bv16)
    requires p < 0x100
    ensures TimesX8(p) == p << 8
  {
  }

  /** A byte of the table is eight steps of the division. */
  lemma ByteIsTimesX8(c: bv16, b: bv8)
    ensures ProcessByte(c, b) == TimesX8(Sum(c, High(b)))
  {
    hide TimesX8, Sum, Entry, HighPart, LowPart, High;
    var h, l := HighPart(c), LowPart(c);
    TwoParts(c, b);
    LowMovesUp(l);
    EntryOf(h ^ b);
    HighIs(c);
    TimesX8Linear(Sum(High(h), High(b)), l);
    SumFacts(High(h), l, High(b), 0);
    SumFacts(High(h), High(b), l, 0);
    SumFacts(l, High(b), 0, 0);
    SumFacts(TimesX8(Sum(High(h), High(b))), l << 8, 0, 0);
  }

  lemma EntryOf(b: bv8)
    ensures Entry(b) == TimesX8(High(b))
  {
    hide Entry, TimesX8;
    EntryIsRemainder(b);
  }

  lemma HighIs(c: bv16)
    ensures HighPart(c) == (c >> 8) as bv8
  {
  }

  function ZeroBytes(n: nat): seq<bv8> {
    seq(n, _ => 0)
  }

  /** Dividing over more bytes. */
  lemma {:induction false} RemainderOfBytes(r: bv16, data: seq<bv8>, b: bv8)
    ensures Remainder(r, Bits(data + [b])) == Sum(TimesX8(Remainder(r, Bits(data))), b as bv16)
    decreases |data|
  {
    hide TimesX8, Sum, Divided, BitsOf;
    if data == [] {
      assert data + [b] == [b];
      assert Bits([b]) == BitsOf(b) + [];
      RemainderOfByte(r, b, []);
    } else {
      assert (data + [b])[1..] == data[1..] + [b];
      RemainderOfByte(r, data[0], Bits(data[1..] + [b]));
      RemainderOfByte(r, data[0], Bits(data[1..]));
      RemainderOfBytes(Sum(TimesX8(r), data[0] as bv16), data[1..], b);
    }
  }

  lemma ZeroByte(c: bv16)
    ensures (0 as bv8) as bv16 == 0 && Sum(c, 0) == c
  {
  }

  /** The checksum state is that of the division, 16 zero bits further on; what was there at the start has moved up. */
  lemma {:induction false} StateIsRemainder(c: bv16, data: seq<bv8>)
    ensures Process(c, data) == Sum(TimesX8(TimesX8(Remainder(0, Bits(data)))), Remainder(c, Bits(ZeroBytes(|data|))))
    decreases |data|
  {
    hide TimesX8, Sum, Divided, BitsOf, ProcessByte, High;
    if data == [] {
      assert Bits(data) == [] && Bits(ZeroBytes(0)) == [];
      ZeroAtStart(c);
    } else {
      var k := |data| - 1;
      var before, b := data[..k], data[k];
      StateIsRemainder(c, before);
      assert data == before + [b] && ZeroBytes(|data|) == ZeroBytes(k) + [0];
      RemainderOfBytes(0, before, b);
      RemainderOfBytes(c, ZeroBytes(k), 0);
      ZeroByte(TimesX8(Remainder(c, Bits(ZeroBytes(k)))));
      ByteIsTimesX8(Process(c, before), b);
      OneByteOn(Remainder(0, Bits(before)), Remainder(c, Bits(ZeroBytes(k))), b);
    }
  }

  lemma ZeroAtStart(c: bv16)
    ensures c == Sum(TimesX8(TimesX8(0)), c)
  {
    hide TimesX8, Sum;
    ZeroStays();
    SumFacts(c, 0, 0, 0);
  }

  lemma ZeroStays()
    ensures TimesX8(0) == 0
  {
  }

  /** X^16 of a low byte is X^8 of a high one. */
  lemma ByteMovesUp(b: bv8)
    ensures TimesX8(b as bv16) == High(b)
  {
  }

  lemma OneByteOn(r: bv16, c: bv16, b: bv8)
    ensures TimesX8(Sum(Sum(TimesX8(TimesX8(r)), c), High(b)))
      == Sum(TimesX8(TimesX8(Sum(TimesX8(r), b as bv16))), TimesX8(c))
  {
    hide TimesX8, Sum, High;
    var x, low := TimesX8(r), b as bv16;
    TimesX8Linear(x, low);
    ByteMovesUp(b);
    SumFacts(TimesX8(x), c, High(b), 0);
    SumFacts(TimesX8(x), High(b), c, 0);
    SumFacts(c, High(b), 0, 0);
    TimesX8Linear(Sum(TimesX8(x), High(b)), c);
  }

  /** The checksum of a string is the remainder, on division by x^16 + x^12 + x^5 + 1, of the string times x^16,
      plus that of 0xffff times x to the number of bits. */
  lemma ChecksumIsRemainder(data: seq<bv8>)
    ensures Process(CRC_INIT_VALUE, data) ==
            Sum(Remainder(0, Bits(data + [0, 0])), Remainder(0xffff, Bits(ZeroBytes(|data|))))
  {
    hide TimesX8, Sum, Divided, BitsOf;
    StateIsRemainder(CRC_INIT_VALUE, data);
    assert data + [0, 0] == (data + [0]) + [0];
    RemainderOfBytes(0, data, 0);
    RemainderOfBytes(0, data + [0], 0);
    ZeroByte(TimesX8(Remainder(0, Bits(data))));
    ZeroByte(TimesX8(Remainder(0, Bits(data + [0]))));
  }

  // ----- what the checksum detects

  lemma {:induction false} ProcessOn(c: bv16, p: seq<bv8>, q: seq<bv8>)
    ensures Process(c, p + q) == Process(Process(c, p), q)
    decreases |q|
  {
    if q == [] {
      assert p + q == p;
    } else {
      var k := |q| - 1;
      assert (p + q)[..|p + q| - 1] == p + q[..k];
      ProcessOn(c, p, q[..k]);
    }
  }

  lemma SameByteInjective(c: bv16, d: bv16, b: bv8)
    requires ProcessByte(c, b) == ProcessByte(d, b)
    ensures c == d
  {
    hide ProcessByte, TimesX8, Sum, High;
    ByteIsTimesX8(c, b);
    ByteIsTimesX8(d, b);
    TimesX8Injective(Sum(c, High(b)), Sum(d, High(b)));
    Cancelled(c, d, High(b));
  }

  lemma Cancelled(c: bv16, d: bv16, h: bv16)
    ensures Sum(c, h) == Sum(d, h) ==> c == d
    ensures Sum(h, c) == Sum(h, d) ==> c == d
  {
  }

  /** The same bytes keep different states apart. */
  lemma {:induction false} SameBytesInjective(c: bv16, d: bv16, data: seq<bv8>)
    requires Process(c, data) == Process(d, data)
    ensures c == d
    decreases |data|
  {
    hide ProcessByte;
    if data != [] {
      var k := |data| - 1;
      SameByteInjective(Process(c, data[..k]), Process(d, data[..k]), data[k]);
      SameBytesInjective(c, d, data[..k]);
    }
  }

  /** Two bytes of their own lead to a state of their own. */
  lemma TwoBytesInjective(c: bv16, a0: bv8, b0: bv8, a1: bv8, b1: bv8)
    requires ProcessByte(ProcessByte(c, a0), b0) == ProcessByte(ProcessByte(c, a1), b1)
    ensures a0 == a1 && b0 == b1
  {
    hide ProcessByte, TimesX8, Sum, High;
    TwoBytes(c, a0, b0);
    TwoBytes(c, a1, b1);
    TimesX8Injective(TimesX8(Sum(c, Word(a0, b0))), TimesX8(Sum(c, Word(a1, b1))));
    TimesX8Injective(Sum(c, Word(a0, b0)), Sum(c, Word(a1, b1)));
    Cancelled(Word(a0, b0), Word(a1, b1), c);
    WordsDiffer(a0, b0, a1, b1);
  }

  function Word(a: bv8, b: bv8): bv16 { Sum(High(a), b as bv16) }

  lemma WordsDiffer(a0: bv8, b0: bv8, a1: bv8, b1: bv8)
    requires Word(a0, b0) == Word(a1, b1)
    ensures a0 == a1 && b0 == b1
  {
  }

  lemma TwoBytes(c: bv16, a: bv8, b: bv8)
    ensures ProcessByte(ProcessByte(c, a), b) == TimesX8(TimesX8(Sum(c, Word(a, b))))
  {
    hide ProcessByte, TimesX8, Sum, High;
    ByteIsTimesX8(c, a);
    ByteIsTimesX8(ProcessByte(c, a), b);
    ByteMovesUp(b);
    TimesX8Linear(Sum(c, High(a)), b as bv16);
    SumFacts(c, High(a), b as bv16, 0);
  }

  /** Strings that agree but for two adjacent bytes at i, or for the last byte. */
  ghost predicate DifferAt(s: seq<bv8>, t: seq<bv8>, i: nat) {
    |s| == |t| && s != t && i < |s| && forall j | 0 <= j < |s| && j != i && j != i + 1 :: s[j] == t[j]
  }

  /** Such strings never have the same checksum. */
  lemma AdjacentBytesDetected(c: bv16, s: seq<bv8>, t: seq<bv8>, i: nat)
    requires DifferAt(s, t, i)
    ensures Process(c, s) != Process(c, t)
  {
    hide ProcessByte;
    var m := if i + 1 < |s| then i + 2 else i + 1;
    var rest := s[m..];
    assert s[..i] == t[..i] && rest == t[m..];
    assert s == s[..m] + rest && t == t[..m] + rest;
    ProcessOn(c, s[..m], rest);
    ProcessOn(c, t[..m], rest);
    if Process(c, s) == Process(c, t) {
      SameBytesInjective(Process(c, s[..m]), Process(c, t[..m]), rest);
      MiddleSame(c, s, t, i, m);
    }
  }

  lemma MiddleSame(c: bv16, s: seq<bv8>, t: seq<bv8>, i: nat, m: nat)
    requires |s| == |t| && i < m <= |s| && m <= i + 2 && s[..i] == t[..i] && Process(c, s[..m]) == Process(c, t[..m])
    ensures s[..m] == t[..m]
  {
    hide ProcessByte, Process;
    if m == i + 1 {
      LastByte(c, s, i);
      LastByte(c, t, i);
      OneByteInjective(Process(c, s[..i]), s[i], t[i]);
      assert s[..m] == s[..i] + [s[i]] && t[..m] == t[..i] + [t[i]];
    } else {
      LastByte(c, s, i);
      LastByte(c, t, i);
      LastByte(c, s, i + 1);
      LastByte(c, t, i + 1);
      TwoBytesInjective(Process(c, s[..i]), s[i], s[i + 1], t[i], t[i + 1]);
      assert s[..m] == s[..i] + [s[i]] + [s[i + 1]] && t[..m] == t[..i] + [t[i]] + [t[i + 1]];
    }
  }

  lemma LastByte(c: bv16, s: seq<bv8>, i: nat)
    requires i < |s|
    ensures Process(c, s[..i + 1]) == ProcessByte(Process(c, s[..i]), s[i])
  {
    assert s[..i + 1][..i] == s[..i];
  }

  lemma OneByteInjective(c: bv16, a: bv8, b: bv8)
    requires ProcessByte(c, a) == ProcessByte(c, b)
    ensures a == b
  {
    hide ProcessByte;
    TwoBytesInjective(c, a, 0, b, 0);
  }
}
