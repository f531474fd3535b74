/**
 The integrity check of the ZIP reader: a table-driven CRC-32, proved against the
 bit-serial shift register that section 8 of RFC 1952 speeds up with a table.
 */
module Crc32 {

  /** The reversed generator polynomial. */
  const POLYNOMIAL: bv32 := 0xedb88320

  const ALL_ONES: bv32 := 0xffff_ffff

  function Xor(x: bv32, y: bv32): bv32 { x ^ y }

  function Half(w: bv32): bv32 { w >> 1 }

  function LowBit(w: bv32): bv32 { w & 1 }

  function LowByte(w: bv32): bv32 { w & 0xff }

  function HighBytes(w: bv32): bv32 { w & 0xffff_ff00 }

  function Shifted(w: bv32): bv32 { w >> 8 }

  // ------------------------------------------------- the reference register

  /** Clock one message bit through the register. */
  function FeedBit(crc: bv32, bit: bv32): bv32 {
    if LowBit(Xor(crc, bit)) == 1 then Xor(POLYNOMIAL, Half(crc)) else Half(crc)
  }

  /** Clock the `n` low bits of `w`, least significant first. */
  function FeedBits(crc: bv32, w: bv32, n: nat): bv32
    decreases n
  {
    if n == 0 then crc else FeedBits(FeedBit(crc, LowBit(w)), Half(w), n - 1)
  }

  function FeedByte(crc: bv32, b: bv8): bv32 {
    FeedBits(crc, b as bv32, 8)
  }

  function Feed(crc: bv32, data: seq<bv8>): bv32
    decreases |data|
  {
    if data == [] then crc else Feed(FeedByte(crc, data[0]), data[1..])
  }

  /** CRC-32 of a message, one bit at a time. */
  function Crc(data: seq<bv8>): bv32 {
    Feed(ALL_ONES, data) ^ ALL_ONES
  }

  // ------------------------------------------------- rounds of the table

  /** One round of the inner loop that fills a table entry. */
  function Round(value: bv32): bv32 {
    if LowBit(value) == 1 then Xor(POLYNOMIAL, Half(value)) else Half(value)
  }

  function Rounds(value: bv32, n: nat): bv32
    decreases n
  {
    if n == 0 then value else Rounds(Round(value), n - 1)
  }

  function Halved(w: bv32, n: nat): bv32
    decreases n
  {
    if n == 0 then w else Halved(Half(w), n - 1)
  }

  predicate LowZeros(w: bv32, n: nat)
    decreases n
  {
    n == 0 || (LowBit(w) == 0 && LowZeros(Half(w), n - 1))
  }

  lemma XorAssociative(x: bv32, y: bv32, z: bv32)
    ensures Xor(Xor(x, y), z) == Xor(x, Xor(y, z))
  {
  }

  lemma HalfIsLinear(x: bv32, y: bv32)
    ensures Half(Xor(x, y)) == Xor(Half(x), Half(y))
  {
  }

  lemma LowBitOfMixed(x: bv32, y: bv32)
    ensures LowBit(Xor(x, LowBit(y))) == LowBit(Xor(x, y))
  {
  }

  /** A clock with the low bit of `w` is a round on the register with all of `w` mixed in. */
  lemma RoundClocksOneBit(crc: bv32, w: bv32)
    ensures Xor(FeedBit(crc, LowBit(w)), Half(w)) == Round(Xor(crc, w))
  {
    hide Xor, Half, LowBit;
    LowBitOfMixed(crc, w);
    HalfIsLinear(crc, w);
    XorAssociative(POLYNOMIAL, Half(crc), Half(w));
  }

  lemma ZeroBitIsRound(crc: bv32)
    ensures FeedBit(crc, 0) == Round(crc)
  {
    XorZero(crc);
    hide Xor, Half, LowBit;
  }

  lemma XorZero(x: bv32)
    ensures Xor(x, 0) == x
  {
  }

  lemma HalfAndLowBitDetermine(x: bv32, y: bv32)
    requires Half(x) == Half(y) && LowBit(x) == LowBit(y)
    ensures x == y
  {
  }

  lemma LowBitIsBit(x: bv32)
    ensures LowBit(x) == 0 || LowBit(x) == 1
  {
  }

  lemma XorCancels(x: bv32, y: bv32, z: bv32)
    requires Xor(x, y) == Xor(x, z)
    ensures y == z
  {
  }

  /** The polynomial sets the top bit, which halving always clears. */
  lemma PolynomialShows(x: bv32, y: bv32)
    ensures Xor(POLYNOMIAL, Half(x)) != Half(y)
  {
  }

  lemma RoundInjective(x: bv32, y: bv32)
    requires Round(x) == Round(y)
    ensures x == y
  {
    hide Xor, Half, LowBit;
    PolynomialShows(x, y);
    PolynomialShows(y, x);
    LowBitIsBit(x);
    LowBitIsBit(y);
    if LowBit(x) == 1 && LowBit(y) == 1 {
      XorCancels(POLYNOMIAL, Half(x), Half(y));
    }
    HalfAndLowBitDetermine(x, y);
  }

  /** Clocking `n` bits is `n` rounds on the register with the bits mixed in. */
  lemma {:induction false} FeedBitsAreRounds(crc: bv32, w: bv32, n: nat)
    ensures Xor(FeedBits(crc, w, n), Halved(w, n)) == Rounds(Xor(crc, w), n)
    decreases n
  {
    hide Xor, Half, LowBit, Round, FeedBit;
    if n > 0 {
      RoundClocksOneBit(crc, w);
      FeedBitsAreRounds(FeedBit(crc, LowBit(w)), Half(w), n - 1);
    }
  }

  /** Rounds pass over zero low bits without mixing them in. */
  lemma {:induction false} RoundsSkipLowZeros(low: bv32, high: bv32, n: nat)
    requires LowZeros(high, n)
    ensures Rounds(Xor(low, high), n) == Xor(Rounds(low, n), Halved(high, n))
    decreases n
  {
    hide Xor, Half, LowBit, Round, FeedBit;
    if n > 0 {
      RoundClocksOneBit(low, high);
      ZeroBitIsRound(low);
      RoundsSkipLowZeros(Round(low), Half(high), n - 1);
    }
  }

  lemma {:induction false} RoundsAdd(x: bv32, m: nat, n: nat)
    ensures Rounds(x, m + n) == Rounds(Rounds(x, m), n)
    decreases m
  {
    hide Round;
    if m > 0 {
      RoundsAdd(Round(x), m - 1, n);
    }
  }

  lemma {:induction false} RoundsInjective(x: bv32, y: bv32, n: nat)
    requires Rounds(x, n) == Rounds(y, n)
    ensures x == y
    decreases n
  {
    hide Round;
    if n > 0 {
      RoundsInjective(Round(x), Round(y), n - 1);
      RoundInjective(x, y);
    }
  }

  lemma EightHalvesShift(w: bv32)
    ensures Half(Half(Half(Half(Half(Half(Half(Half(w)))))))) == Shifted(w)
  {
  }

  lemma {:induction false} HalvedEight(w: bv32)
    ensures Halved(w, 8) == Shifted(w)
  {
    hide Half, Shifted;
    EightHalvesShift(w);
    assert Halved(w, 8) == Halved(Half(Half(w)), 6) == Halved(Half(Half(Half(Half(w)))), 4);
  }

  lemma LowBits(w: bv32)
    requires LowByte(w) == 0
    ensures LowBit(w) == LowBit(Half(w)) == LowBit(Half(Half(w))) == LowBit(Half(Half(Half(w)))) == 0
    ensures Half(Half(Half(Half(w)))) & 0xf == 0
  {
  }

  lemma LowNibble(w: bv32)
    requires w & 0xf == 0
    ensures LowBit(w) == LowBit(Half(w)) == LowBit(Half(Half(w))) == LowBit(Half(Half(Half(w)))) == 0
  {
  }

  lemma {:induction false} LowZerosEight(w: bv32)
    requires LowByte(w) == 0
    ensures LowZeros(w, 8)
  {
    LowBits(w);
    var v := Half(Half(Half(Half(w))));
    LowNibble(v);
    hide Half, LowBit;
    assert LowZeros(v, 4) by {
      assert LowZeros(Half(Half(v)), 2);
    }
    assert LowZeros(Half(Half(w)), 6);
  }

  lemma ByteFits(b: bv8)
    ensures Shifted(b as bv32) == 0
  {
  }

  /** Eight clocks with a byte are eight rounds on the register with the byte mixed in. */
  lemma FeedByteIsRounds(crc: bv32, b: bv8)
    ensures FeedByte(crc, b) == Rounds(Xor(crc, b as bv32), 8)
  {
    hide Xor, Rounds, FeedBits, Halved, Shifted;
    ByteFits(b);
    HalvedEight(b as bv32);
    FeedBitsAreRounds(crc, b as bv32, 8);
    XorZero(FeedByte(crc, b));
  }

  lemma SplitLowByte(x: bv32)
    ensures Xor(LowByte(x), HighBytes(x)) == x && LowByte(HighBytes(x)) == 0
  {
  }

  lemma HighBytesUntouched(crc: bv32, w: bv32)
    requires Shifted(w) == 0
    ensures Shifted(HighBytes(Xor(crc, w))) == Shifted(crc)
  {
  }

  /** A table step on the low byte is eight clocks of the register. */
  lemma TableStep(crc: bv32, b: bv8)
    ensures FeedByte(crc, b) == Xor(Rounds(LowByte(Xor(crc, b as bv32)), 8), Shifted(crc))
  {
    hide Xor, Rounds, FeedByte, Halved, LowZeros, LowByte, HighBytes, Shifted;
    var mixed := Xor(crc, b as bv32);
    var high := HighBytes(mixed);
    ByteFits(b);
    SplitLowByte(mixed);
    HighBytesUntouched(crc, b as bv32);
    LowZerosEight(high);
    HalvedEight(high);
    FeedByteIsRounds(crc, b);
    RoundsSkipLowZeros(LowByte(mixed), high, 8);
  }

  // ------------------------------------------------- the table-driven loop

  lemma IndexRoundTrip(w: bv32)
    ensures (LowByte(w) as int) < 256 && (LowByte(w) as int) as bv32 == LowByte(w)
  {
  }

  method TableEntry(index: nat) returns (value: bv32)
    requires index < 256
    ensures value == Rounds(index as bv32, 8)
  {
    value := index as bv32;
    for bit := 0 to 8
      invariant value == Rounds(index as bv32, bit)
    {
      RoundsAdd(index as bv32, bit, 1);
      value := if value & 1 == 1 then POLYNOMIAL ^ (value >> 1) else value >> 1;
    }
  }

  ghost predicate IsTable(entries: seq<bv32>) {
    |entries| == 256 && forall i: nat :: i < 256 ==> entries[i] == Rounds(i as bv32, 8)
  }

  method CrcTable() returns (table: array<bv32>)
    ensures fresh(table) && IsTable(table[..])
  {
    hide Rounds;
    table := new bv32[256];
    for index := 0 to 256
      invariant forall i: nat :: i < index ==> table[i] == Rounds(i as bv32, 8)
    {
      table[index] := TableEntry(index);
    }
  }

  lemma {:induction false} FeedConcat(crc: bv32, x: seq<bv8>, y: seq<bv8>)
    ensures Feed(crc, x + y) == Feed(Feed(crc, x), y)
    decreases |x|
  {
    hide FeedByte;
    if x == [] {
      assert x + y == y;
    } else {
      FeedConcat(FeedByte(crc, x[0]), x[1..], y);
      assert (x + y)[0] == x[0] && (x + y)[1..] == x[1..] + y;
    }
  }

  /** One step of the loop over the bytes. */
  lemma LookupStep(table: seq<bv32>, crc: bv32, b: bv8)
    requires IsTable(table)
    ensures LowByte(Xor(crc, b as bv32)) as int < 256
    ensures Xor(table[LowByte(Xor(crc, b as bv32)) as int], Shifted(crc)) == FeedByte(crc, b)
  {
    hide Rounds, FeedByte, Xor, LowByte, Shifted;
    TableStep(crc, b);
    IndexRoundTrip(Xor(crc, b as bv32));
  }

  /** For every byte sequence the table-driven loop is the bit-serial CRC-32. */
  method ComputeCrc(table: array<bv32>, bytes: seq<bv8>) returns (checksum: bv32)
    requires IsTable(table[..])
    ensures checksum == Crc(bytes)
  {
    hide Rounds, FeedByte, Xor, LowByte, Shifted;
    var crc := ALL_ONES;
    for i := 0 to |bytes|
      invariant crc == Feed(ALL_ONES, bytes[..i])
    {
      LookupStep(table[..], crc, bytes[i]);
      FeedConcat(ALL_ONES, bytes[..i], [bytes[i]]);
      assert bytes[..i + 1] == bytes[..i] + [bytes[i]];
      crc := Xor(table[LowByte(Xor(crc, bytes[i] as bv32)) as int], Shifted(crc));
    }
    assert bytes[..|bytes|] == bytes;
    checksum := crc ^ ALL_ONES;
  }

  // ------------------------------------------------- what it detects

  function Raised(w: bv32): bv32 { w << 8 }

  /** Up to four bytes, the first in the low byte. */
  function Word(bytes: seq<bv8>): bv32 {
    if bytes == [] then 0 else Xor(bytes[0] as bv32, Raised(Word(bytes[1..])))
  }

  lemma RaisedByte(b: bv8, w: bv32)
    requires Shifted(Shifted(Shifted(w))) == 0
    ensures Shifted(Xor(b as bv32, Raised(w))) == w
    ensures LowByte(Xor(b as bv32, Raised(w))) == b as bv32
    ensures Shifted(Raised(w)) == w
    ensures LowByte(Raised(w)) == 0
  {
  }

  lemma ZeroShifted()
    ensures Shifted(0) == 0
  {
  }

  /** A word of at most four bytes comes apart byte by byte. */
  lemma {:induction false} WordParts(bytes: seq<bv8>)
    requires 1 <= |bytes| <= 4
    ensures Shifted(Word(bytes)) == Word(bytes[1..])
    ensures LowByte(Word(bytes)) == bytes[0] as bv32
    ensures Shifted(Raised(Word(bytes[1..]))) == Word(bytes[1..])
    ensures LowByte(Raised(Word(bytes[1..]))) == 0
  {
    hide Shifted, LowByte, Xor, Raised;
    ZeroShifted();
    var r1 := bytes[1..];
    if |r1| >= 1 {
      WordParts(r1);
      var r2 := r1[1..];
      if |r2| >= 1 {
        WordParts(r2);
        if |r2[1..]| >= 1 {
          WordParts(r2[1..]);
        }
      }
    }
    RaisedByte(bytes[0], Word(r1));
  }

  lemma SameByte(x: bv8, y: bv8)
    requires x as bv32 == y as bv32
    ensures x == y
  {
  }

  lemma {:induction false} WordInjective(x: seq<bv8>, y: seq<bv8>)
    requires |x| == |y| <= 4 && Word(x) == Word(y)
    ensures x == y
  {
    hide Shifted, LowByte, Xor, Raised;
    if x != [] {
      WordParts(x);
      WordParts(y);
      SameByte(x[0], y[0]);
      WordInjective(x[1..], y[1..]);
      assert x == [x[0]] + x[1..] && y == [y[0]] + y[1..];
    }
  }

  /** Feeding up to four bytes mixes them in at once and then only runs rounds. */
  lemma {:induction false} FeedWord(crc: bv32, bytes: seq<bv8>)
    requires |bytes| <= 4
    ensures Feed(crc, bytes) == Rounds(Xor(crc, Word(bytes)), 8 * |bytes|)
    decreases |bytes|
  {
    hide Shifted, LowByte, Xor, Raised, Rounds, FeedByte, Halved, LowZeros;
    if bytes == [] {
      XorZero(crc);
      NoRounds(crc);
    } else {
      var b, rest := bytes[0] as bv32, bytes[1..];
      var high := Raised(Word(rest));
      WordParts(bytes);
      FeedByteIsRounds(crc, bytes[0]);
      LowZerosEight(high);
      HalvedEight(high);
      RoundsSkipLowZeros(Xor(crc, b), high, 8);
      XorAssociative(crc, b, high);
      FeedWord(FeedByte(crc, bytes[0]), rest);
      RoundsAdd(Xor(crc, Word(bytes)), 8, 8 * |rest|);
    }
  }

  lemma NoRounds(x: bv32)
    ensures Rounds(x, 0) == x
  {
  }

  lemma {:induction false} FeedInjective(x: bv32, y: bv32, data: seq<bv8>)
    requires Feed(x, data) == Feed(y, data)
    ensures x == y
    decreases |data|
  {
    hide Xor, Rounds, FeedByte;
    if data != [] {
      FeedInjective(FeedByte(x, data[0]), FeedByte(y, data[0]), data[1..]);
      var b := data[0] as bv32;
      FeedByteIsRounds(x, data[0]);
      FeedByteIsRounds(y, data[0]);
      RoundsInjective(Xor(x, b), Xor(y, b), 8);
      XorCommutes(x, b);
      XorCommutes(y, b);
      XorCancels(b, x, y);
    }
  }

  lemma XorCommutes(x: bv32, y: bv32)
    ensures Xor(x, y) == Xor(y, x)
  {
  }

  /** Two different windows of at most four bytes never reach the same register. */
  lemma WindowDetected(before: seq<bv8>, x: seq<bv8>, y: seq<bv8>, after: seq<bv8>)
    requires |x| == |y| <= 4 && x != y
    ensures Crc(before + x + after) != Crc(before + y + after)
  {
    hide Xor, Rounds, FeedByte, Word;
    var crc := Feed(ALL_ONES, before);
    FeedConcat(ALL_ONES, before, x);
    FeedConcat(ALL_ONES, before, y);
    FeedConcat(ALL_ONES, before + x, after);
    FeedConcat(ALL_ONES, before + y, after);
    FeedWord(crc, x);
    FeedWord(crc, y);
    var fx, fy := Feed(ALL_ONES, before + x + after), Feed(ALL_ONES, before + y + after);
    if fx == fy {
      FeedInjective(Feed(crc, x), Feed(crc, y), after);
      RoundsInjective(Xor(crc, Word(x)), Xor(crc, Word(y)), 8 * |x|);
      XorCancels(crc, Word(x), Word(y));
      WordInjective(x, y);
      assert false;
    }
    FinalXor(fx, fy);
  }

  lemma FinalXor(x: bv32, y: bv32)
    requires x != y
    ensures x ^ ALL_ONES != y ^ ALL_ONES
  {
  }

  /**
   Equal-length buffers that differ, but only within four consecutive bytes, always
   have different CRCs. With `window` at the one place they differ this covers every
   one-byte corruption.
   */
  lemma BurstDetected(a: seq<bv8>, b: seq<bv8>, window: nat)
    requires |a| == |b| && a != b && window <= |a|
    requires forall i :: 0 <= i < |a| && a[i] != b[i] ==> window <= i < window + 4
    ensures Crc(a) != Crc(b)
  {
    var end := if window + 4 <= |a| then window + 4 else |a|;
    var x, y := a[window..end], b[window..end];
    assert a == a[..window] + x + a[end..];
    assert b[..window] == a[..window] && b[end..] == a[end..];
    assert b == a[..window] + y + a[end..];
    WindowDetected(a[..window], x, y, a[end..]);
  }

  /**
   The published check value of CRC-32, for the digits from 1 to 9. It settles which
   polynomial, bit order, start and final value are meant.
   */
  lemma CheckValue()
    ensures Crc([0x31, 0x32, 0x33, 0x34, 0x35, 0x36, 0x37, 0x38, 0x39]) == 0xcbf4_3926
  {
    hide Feed;
    var digits: seq<bv8> := [0x31, 0x32, 0x33, 0x34, 0x35, 0x36, 0x37, 0x38, 0x39];
    assert digits[0..] == digits && digits[9..] == [];
    Clock(digits, 0, 0xffff_ffff, 0x7c23_1048);
    Clock(digits, 1, 0x7c23_1048, 0xb0ac_bb32);
    Clock(digits, 2, 0xb0ac_bb32, 0x77b7_9c2d);
    Clock(digits, 3, 0x77b7_9c2d, 0x641c_1f5c);
    Clock(digits, 4, 0x641c_1f5c, 0x340a_c5e3);
    Clock(digits, 5, 0x340a_c5e3, 0xf68d_2c9e);
    Clock(digits, 6, 0xf68d_2c9e, 0xaffc_9660);
    Clock(digits, 7, 0xaffc_9660, 0x651f_2550);
    Clock(digits, 8, 0x651f_2550, 0x340b_c6d9);
    FeedNothing(0x340b_c6d9);
  }

  lemma FeedNothing(crc: bv32)
    ensures Feed(crc, []) == crc
  {
  }

  lemma Clock(data: seq<bv8>, k: nat, crc: bv32, next: bv32)
    requires k < |data| && FeedByte(crc, data[k]) == next
    ensures Feed(crc, data[k..]) == Feed(next, data[k + 1..])
  {
    assert data[k..][1..] == data[k + 1..];
  }
}
