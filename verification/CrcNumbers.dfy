/** Check values of the CRC, computed on 32-bit words, and what a message followed by its own CRC gives. */
module CrcNumbers {
  import opened Bytes
  import opened Indexing
  import opened Crc32

  function Low(w: bv32): bool {
    w & 1 == 1
  }

  function Half(w: bv32): bv32 {
    w >> 1
  }

  function Mix(v: bv32, w: bv32): bv32 {
    v ^ w
  }

  /** The `k` low bits of a word, least significant first. */
  function WordBits(w: bv32, k: nat): (bits: seq<bool>)
    ensures |bits| == k
    decreases k
  {
    if k == 0 then [] else [Low(w)] + WordBits(Half(w), k - 1)
  }

  /** One step of the reflected shift register, on a word. */
  function StepWord(w: bv32): bv32 {
    if w & 1 == 1 then (w >> 1) ^ 0xEDB8_8320 else w >> 1
  }

  function StepsWord(w: bv32, k: nat): bv32
    decreases k, w
  {
    if k == 0 then w else StepsWord(StepWord(w), k - 1)
  }

  // ----- words for registers

  lemma MixHalf(v: bv32, w: bv32)
    ensures Half(Mix(v, w)) == Mix(Half(v), Half(w)) && Low(Mix(v, w)) == (Low(v) != Low(w))
  {
  }

  lemma {:induction false} MixBits(v: bv32, w: bv32, k: nat)
    ensures forall i :: 0 <= i < k ==> WordBits(Mix(v, w), k)[i] == (WordBits(v, k)[i] != WordBits(w, k)[i])
    decreases k
  {
    hide Low, Half, Mix;
    if k > 0 {
      MixHalf(v, w);
      MixBits(Half(v), Half(w), k - 1);
    }
  }

  lemma MixRegisters(v: bv32, w: bv32)
    ensures Xor(WordBits(v, 32), WordBits(w, 32)) == WordBits(Mix(v, w), 32)
  {
    hide WordBits, Mix;
    MixBits(v, w, 32);
  }

  /** Halving `k` times leaves nothing. */
  predicate Small(w: bv32, k: nat)
    decreases k
  {
    if k == 0 then w == 0 else Small(Half(w), k - 1)
  }

  lemma SmallNibble(w: bv32, k: nat)
    requires Small(w >> 4, k)
    ensures Small(w, k + 4)
  {
    DigitBits(w);
    hide Half, Low, Digit;
    assert Small(Half(Half(Half(w))), k + 1) && Small(Half(Half(w)), k + 2) && Small(Half(w), k + 3);
  }

  lemma WordsAreSmall(w: bv32)
    ensures Small(w, 32)
  {
    hide Small;
    assert Small(0, 0) by { Nothing(); }
    assert w >> 4 >> 4 >> 4 >> 4 >> 4 >> 4 >> 4 >> 4 == 0;
    SmallNibble(w >> 4 >> 4 >> 4 >> 4 >> 4 >> 4 >> 4, 0);
    SmallNibble(w >> 4 >> 4 >> 4 >> 4 >> 4 >> 4, 4);
    SmallNibble(w >> 4 >> 4 >> 4 >> 4 >> 4, 8);
    SmallNibble(w >> 4 >> 4 >> 4 >> 4, 12);
    SmallNibble(w >> 4 >> 4 >> 4, 16);
    SmallNibble(w >> 4 >> 4, 20);
    SmallNibble(w >> 4, 24);
    SmallNibble(w, 28);
  }

  lemma Nothing()
    ensures Small(0, 0)
  {
  }

  lemma NoLow()
    ensures !Low(0)
  {
  }

  lemma {:induction false} BitsBeyond(w: bv32, k: nat)
    requires Small(w, k)
    ensures WordBits(w, k + 1) == WordBits(w, k) + [false]
    decreases k
  {
    hide Half, Low;
    if k > 0 {
      BitsBeyond(Half(w), k - 1);
    } else {
      NoLow();
    }
  }

  lemma ShiftBits(w: bv32)
    ensures ShiftRight(WordBits(w, 32), 1) == WordBits(Half(w), 32)
  {
    hide Half, Low;
    WordsAreSmall(w);
    BitsBeyond(Half(w), 31);
    assert WordBits(w, 32)[1..] == WordBits(Half(w), 31);
  }

  // ----- words for numbers

  function Digit(w: bv32): nat {
    (if w & 1 == 1 then 1 else 0) + (if w & 2 == 2 then 2 else 0) + (if w & 4 == 4 then 4 else 0) + (if w & 8 == 8 then 8 else 0)
  }

  lemma DigitBits(w: bv32)
    ensures Digit(w) == (if Low(w) then 1 else 0) + (if Low(Half(w)) then 2 else 0)
                        + (if Low(Half(Half(w))) then 4 else 0) + (if Low(Half(Half(Half(w)))) then 8 else 0)
    ensures Half(Half(Half(Half(w)))) == w >> 4
  {
  }

  /** The hexadecimal digits of a word, as a number. */
  function HexNumber(w: bv32, digits: nat): nat
    decreases digits, w
  {
    if digits == 0 then 0 else Digit(w) + 16 * HexNumber(w >> 4, digits - 1)
  }

  lemma {:induction false} NumberOfWord(w: bv32, digits: nat)
    ensures Number(WordBits(w, 4 * digits)) == HexNumber(w, digits)
    decreases digits
  {
    if digits > 0 {
      NumberOfWord(w >> 4, digits - 1);
      NumberOfNibble(w, 4 * (digits - 1));
    }
  }

  lemma NumberOfNibble(w: bv32, k: nat)
    ensures Number(WordBits(w, k + 4)) == Digit(w) + 16 * Number(WordBits(w >> 4, k))
  {
    DigitBits(w);
    hide Low, Half, Digit;
    NextNumber(w, k + 3);
    NextNumber(Half(w), k + 2);
    NextNumber(Half(Half(w)), k + 1);
    NextNumber(Half(Half(Half(w))), k);
  }

  lemma NextNumber(w: bv32, k: nat)
    ensures Number(WordBits(w, k + 1)) == (if Low(w) then 1 else 0) + 2 * Number(WordBits(Half(w), k))
  {
    hide Low, Half;
    assert WordBits(w, k + 1)[1..] == WordBits(Half(w), k);
  }

  // ----- the constants

  lemma PolynomialWord()
    ensures WordBits(0xEDB8_8320, 32) == Polynomial()
  {
    assert HexNumber(0xE, 1) == 0xE;
    assert HexNumber(0xED, 2) == 0xED;
    assert HexNumber(0xEDB, 3) == 0xEDB;
    assert HexNumber(0xEDB8, 4) == 0xEDB8;
    assert HexNumber(0xEDB88, 5) == 0xEDB88;
    assert HexNumber(0xEDB883, 6) == 0xEDB883;
    assert HexNumber(0xEDB8832, 7) == 0xEDB8832;
    hide Number, Polynomial, WordBits;
    NumberOfWord(0xEDB8_8320, 8);
    PolynomialNumber();
    NumberInjective(WordBits(0xEDB8_8320, 32), Polynomial());
  }

  lemma OnesNumber()
    ensures Number(AllOnes()) == 0xFFFF_FFFF
  {
    hide Number;
    OnesHighHalf();
    NumberByNibble(AllOnes(), 12);
    NumberByNibble(AllOnes(), 8);
    NumberByNibble(AllOnes(), 4);
    NumberByNibble(AllOnes(), 0);
    assert AllOnes()[0..] == AllOnes();
  }

  lemma OnesHighHalf()
    ensures Number(AllOnes()[16..]) == 0xFFFF
  {
    NoBits();
    hide Number;
    NumberByNibble(AllOnes(), 28);
    NumberByNibble(AllOnes(), 24);
    NumberByNibble(AllOnes(), 20);
    NumberByNibble(AllOnes(), 16);
  }

  lemma NoBits()
    ensures Number(AllOnes()[32..]) == 0
  {
    assert AllOnes()[32..] == [];
  }

  lemma OnesWord()
    ensures WordBits(0xFFFF_FFFF, 32) == AllOnes()
  {
    assert HexNumber(0xF, 1) == 0xF;
    assert HexNumber(0xFF, 2) == 0xFF;
    assert HexNumber(0xFFF, 3) == 0xFFF;
    assert HexNumber(0xFFFF, 4) == 0xFFFF;
    assert HexNumber(0xFFFFF, 5) == 0xFFFFF;
    assert HexNumber(0xFFFFFF, 6) == 0xFFFFFF;
    assert HexNumber(0xFFFFFFF, 7) == 0xFFFFFFF;
    hide Number, AllOnes, WordBits;
    NumberOfWord(0xFFFF_FFFF, 8);
    OnesNumber();
    NumberInjective(WordBits(0xFFFF_FFFF, 32), AllOnes());
  }

  lemma StepBits(w: bv32)
    ensures Step(WordBits(w, 32)) == WordBits(StepWord(w), 32)
  {
    ShiftBits(w);
    PolynomialWord();
    MixRegisters(0xEDB8_8320, Half(w));
    assert WordBits(w, 32)[0] == Low(w);
    hide WordBits, Polynomial, ShiftRight, Xor;
    StepParts(w);
    hide Mix, Half, Low, StepWord;
  }

  lemma StepParts(w: bv32)
    ensures StepWord(w) == if Low(w) then Mix(0xEDB8_8320, Half(w)) else Half(w)
  {
  }

  lemma {:induction false} StepsBits(w: bv32, k: nat)
    ensures Steps(WordBits(w, 32), k) == WordBits(StepsWord(w, k), 32)
    decreases k
  {
    hide WordBits, Step, StepWord;
    if k > 0 {
      StepBits(w);
      StepsBits(StepWord(w), k - 1);
    }
  }

  // ----- check values

  /** A check value: the CRC of one zero byte. */
  lemma ZeroByte()
    ensures Checksum([0]) == 0xD202_EF8D
  {
    ZeroByteWord();
    NumberOfWord(0xD202_EF8D, 8);
    hide StepsWord, WordBits, Mix, Number, Xor, Steps, HexNumber, Update, AllOnes, ByteBits, Run, StepWord, Low, Half, Digit;
    OnesWord();
    StepsBits(0xFFFF_FFFF, 8);
    MixRegisters(0x2DFD_1072, 0xFFFF_FFFF);
    ZeroRegister();
    UpdateIsSteps(AllOnes(), 0);
    RunOfByte(AllOnes(), 0);
  }

  lemma RunOfByte(c: Register, b: Byte)
    ensures Run(c, [b]) == Update(c, b)
  {
    hide Update;
    assert [b][1..] == [];
  }

  lemma ZeroByteWord()
    ensures StepsWord(0xFFFF_FFFF, 8) == 0x2DFD_1072 && Mix(0x2DFD_1072, 0xFFFF_FFFF) == 0xD202_EF8D
    ensures HexNumber(0xD202_EF8D, 8) == 0xD202_EF8D
  {
    assert HexNumber(0xD, 1) == 0xD;
    assert HexNumber(0xD2, 2) == 0xD2;
    assert HexNumber(0xD20, 3) == 0xD20;
    assert HexNumber(0xD202, 4) == 0xD202;
    assert HexNumber(0xD202E, 5) == 0xD202E;
    assert HexNumber(0xD202EF, 6) == 0xD202EF;
    assert HexNumber(0xD202EF8, 7) == 0xD202EF8;
  }

  lemma ZeroRegister()
    ensures Xor(AllOnes(), ByteBits(0)) == AllOnes()
  {
    ClearBits(8);
    hide Bits;
  }

  lemma {:induction false} ClearBits(k: nat)
    ensures forall i :: 0 <= i < k ==> !Bits(0, k)[i]
  {
    if k > 0 {
      ClearBits(k - 1);
    }
  }

  // ----- the residue

  lemma {:induction false} StepsTwice(c: Register, a: nat, b: nat)
    ensures Steps(c, a + b) == Steps(Steps(c, a), b)
    decreases a
  {
    hide Step;
    if a > 0 {
      StepsTwice(Step(c), a - 1, b);
    }
  }

  /** The low `j` bits of q * 2^j + r are those of r, the others those of q. */
  lemma {:induction false} BitsSplit(q: nat, r: nat, j: nat, k: nat)
    requires r < Pow2(j)
    ensures Bits(q * Pow2(j) + r, j + k) == Bits(r, j) + Bits(q, k)
    decreases j
  {
    if j > 0 {
      BitsSplit(q, r / 2, j - 1, k);
      HalfOfSum(q, r, Pow2(j - 1));
    }
  }

  lemma HalfOfSum(q: nat, r: nat, p: nat)
    ensures (q * (2 * p) + r) / 2 == q * p + r / 2 && (q * (2 * p) + r) % 2 == r % 2
  {
    assert q * (2 * p) == 2 * (q * p);
  }

  lemma {:induction false} NumberIsBits(bits: seq<bool>)
    ensures Bits(Number(bits), |bits|) == bits
  {
    if bits != [] {
      NumberIsBits(bits[1..]);
      assert bits == [bits[0]] + bits[1..];
    }
  }

  /** Above the bits of a number, its register is clear. */
  lemma NumberRegister(n: nat)
    requires n < 0x100_0000
    ensures Bits(n, 32) == Bits(n, 24) + Clear(8)
  {
    assert Pow2(8) == 256 && Pow2(16) == 0x1_0000 && Pow2(24) == 0x100_0000;
    hide Bits, Pow2;
    BitsSplit(0, n, 24, 8);
    ClearBits(8);
    assert Bits(0, 8) == Clear(8);
  }

  lemma ByteApart(q: nat, b: Byte)
    requires q < 0x100_0000
    ensures var rest := Bits(q * 256 + b as nat, 32);
            var high := Xor(rest, ByteBits(b));
            ClearBelow(high, 8) && ShiftRight(high, 8) == Bits(q, 32) && rest == Xor(ByteBits(b), high)
  {
    hide Bits, Xor, ShiftRight, ClearBelow, Clear, ByteBits;
    BytePieces(q, b);
    SplitRegister(Bits(b as nat, 8), Bits(q, 24));
  }

  lemma BytePieces(q: nat, b: Byte)
    requires q < 0x100_0000
    ensures Bits(q * 256 + b as nat, 32) == Bits(b as nat, 8) + Bits(q, 24)
    ensures Bits(q, 32) == Bits(q, 24) + Clear(8) && ByteBits(b) == Bits(b as nat, 8) + Clear(24)
  {
    assert Pow2(8) == 256;
    hide Bits, Pow2;
    BitsSplit(q, b as nat, 8, 24);
    NumberRegister(q);
  }

  lemma SplitRegister(low: seq<bool>, high: seq<bool>)
    requires |low| == 8 && |high| == 24
    ensures var rest := Xor(low + high, low + Clear(24));
            && ClearBelow(rest, 8) && ShiftRight(rest, 8) == high + Clear(8)
            && Xor(low + Clear(24), rest) == low + high
  {
    hide Xor, ShiftRight;
    var rest := Xor(low + high, low + Clear(24));
    assert ShiftRight(rest, 8) == high + Clear(8);
    assert Xor(low + Clear(24), rest) == low + high;
  }

  lemma XorAssociates(a: Register, b: Register, c: Register)
    ensures Xor(Xor(a, b), c) == Xor(a, Xor(b, c))
  {
  }

  /** Running over the bytes of a number, low byte first, is mixing it in at once. */
  lemma {:induction false} RunOfNumber(c: Register, n: nat, k: nat)
    requires k <= 4 && n < Pow256(k)
    ensures Run(c, LittleEndian(n, k)) == Steps(Xor(c, Bits(n, 32)), 8 * k)
    decreases k
  {
    hide Bits, Steps, Xor, ByteBits, Update, ShiftRight, ClearBelow;
    if k == 0 {
      NothingMixed(c);
    } else {
      var b, bytes := (n % 256) as Byte, LittleEndian(n, k);
      WordLimit(k);
      assert n == n / 256 * 256 + n % 256;
      ByteApart(n / 256, b);
      var high := Xor(Bits(n, 32), ByteBits(b));
      var next := Update(c, b);
      assert bytes[0] == b && bytes[1..] == LittleEndian(n / 256, k - 1);
      UpdateIsSteps(c, b);
      XorAssociates(c, ByteBits(b), high);
      StepsLinear(Xor(c, ByteBits(b)), high, 8);
      StepsOfClear(high, 8);
      assert Steps(Xor(c, Bits(n, 32)), 8) == Xor(next, Bits(n / 256, 32));
      RunOfNumber(next, n / 256, k - 1);
      StepsTwice(Xor(c, Bits(n, 32)), 8, 8 * (k - 1));
    }
  }

  lemma WordLimit(k: nat)
    requires k <= 4
    ensures Pow256(k) <= 0x1_0000_0000
  {
    assert Pow256(2) == 0x1_0000;
  }

  lemma NothingMixed(c: Register)
    ensures Steps(Xor(c, Bits(0, 32)), 0) == c
  {
    ClearBits(32);
    hide Bits;
  }

  /** A message followed by its CRC, low byte first, has the same CRC whatever the message. */
  lemma Residue(data: seq<Byte>)
    ensures Checksum(data) < Pow256(4)
    ensures Checksum(data + LittleEndian(Checksum(data), 4)) == 0x2144_DF1C
  {
    hide Run, Number, Bits, Xor, Steps, LittleEndian;
    var r := Run(AllOnes(), data);
    var c := Xor(r, AllOnes());
    ChecksumFits(data);
    RunConcat(AllOnes(), data, LittleEndian(Checksum(data), 4));
    RunOfNumber(r, Checksum(data), 4);
    NumberIsBits(c);
    WholeMixed(r);
    ResidueNumber();
  }

  lemma WholeMixed(r: Register)
    ensures Xor(r, Xor(r, AllOnes())) == AllOnes()
  {
  }

  lemma ResidueNumber()
    ensures Number(Xor(Steps(AllOnes(), 32), AllOnes())) == 0x2144_DF1C
  {
    assert HexNumber(0x2, 1) == 0x2;
    assert HexNumber(0x21, 2) == 0x21;
    assert HexNumber(0x214, 3) == 0x214;
    assert HexNumber(0x2144, 4) == 0x2144;
    assert HexNumber(0x2144D, 5) == 0x2144D;
    assert HexNumber(0x2144DF, 6) == 0x2144DF;
    assert HexNumber(0x2144DF1, 7) == 0x2144DF1;
    ThirtyTwoSteps();
    assert Mix(0xDEBB_20E3, 0xFFFF_FFFF) == 0x2144_DF1C;
    NumberOfWord(0x2144_DF1C, 8);
    hide StepsWord, WordBits, Mix, Number, Xor, Steps, HexNumber;
    OnesWord();
    StepsBits(0xFFFF_FFFF, 32);
    MixRegisters(0xDEBB_20E3, 0xFFFF_FFFF);
  }

  lemma ByteSteps()
    ensures StepsWord(0xFFFF_FFFF, 8) == 0x2DFD_1072 && StepsWord(0x2DFD_1072, 8) == 0xBE26_ED00
    ensures StepsWord(0xBE26_ED00, 8) == 0x00BE_26ED && StepsWord(0x00BE_26ED, 8) == 0xDEBB_20E3
  {
    assert StepsWord(0x9508_BEC3, 2) == 0xBE26_ED00;
    assert StepsWord(0x39B1_F1CF, 4) == 0xBE26_ED00;
    assert StepsWord(0xE6C7_C73C, 6) == 0xBE26_ED00;
    assert StepsWord(0x2DFD_1072, 8) == 0xBE26_ED00;
    assert StepsWord(0x02F8_9BB4, 2) == 0x00BE_26ED;
    assert StepsWord(0x0BE2_6ED0, 4) == 0x00BE_26ED;
    assert StepsWord(0x2F89_BB40, 6) == 0x00BE_26ED;
    assert StepsWord(0xBE26_ED00, 8) == 0x00BE_26ED;
    assert StepsWord(0xCC0E_8F0E, 2) == 0xDEBB_20E3;
    assert StepsWord(0x86D8_30BA, 4) == 0xDEBB_20E3;
    assert StepsWord(0x76F3_C82B, 6) == 0xDEBB_20E3;
    assert StepsWord(0x00BE_26ED, 8) == 0xDEBB_20E3;
  }

  lemma ThirtyTwoSteps()
    ensures StepsWord(0xFFFF_FFFF, 32) == 0xDEBB_20E3
  {
    ByteSteps();
    hide StepsWord;
    MoreSteps(0xFFFF_FFFF, 8, 8);
    MoreSteps(0xFFFF_FFFF, 16, 8);
    MoreSteps(0xFFFF_FFFF, 24, 8);
  }

  lemma {:induction false} MoreSteps(w: bv32, a: nat, b: nat)
    ensures StepsWord(w, a + b) == StepsWord(StepsWord(w, a), b)
    decreases a
  {
    hide StepWord;
    if a > 0 {
      MoreSteps(StepWord(w), a - 1, b);
    }
  }
}
