/**
 The CRC of section 8 of RFC 1952, which `zlib.crc32` computes: reflected, 32 bits, table driven.
 A register is its 32 bits, least significant first, so a right shift drops bit 0.
*/
module Crc32 {
  import opened Bytes
  import opened Indexing

  /** The `k` low bits of `n`, least significant first. */
  function Bits(n: nat, k: nat): (bits: seq<bool>)
    ensures |bits| == k
  {
    if k == 0 then [] else [n % 2 == 1] + Bits(n / 2, k - 1)
  }

  function Number(bits: seq<bool>): nat {
    if bits == [] then 0 else (if bits[0] then 1 else 0) + 2 * Number(bits[1..])
  }

  function Clear(k: nat): (bits: seq<bool>)
    ensures |bits| == k
  {
    seq(k, i => false)
  }

  type Register = r: seq<bool> | |r| == 32 witness Clear(32)

  function Xor(a: Register, b: Register): (r: Register)
    ensures forall i :: 0 <= i < 32 ==> r[i] == (a[i] != b[i])
  {
    seq(32, i requires 0 <= i < 32 => a[i] != b[i])
  }

  /** `c >> k` */
  function ShiftRight(c: Register, k: nat): (r: Register)
    requires k <= 32
    ensures forall i :: 0 <= i < 32 ==> r[i] == (i + k < 32 && c[i + k])
  {
    c[k..] + Clear(k)
  }

  /** `c & 0xff` */
  function LowByte(c: Register): (r: Register)
    ensures forall i :: 0 <= i < 32 ==> r[i] == (i < 8 && c[i])
  {
    c[..8] + Clear(24)
  }

  /** The exponents below 32 of the generator, of which bit 31 - e is set in a reflected register. */
  predicate IsExponent(e: int) {
    0 <= e <= 2 || 4 <= e <= 5 || 7 <= e <= 8 || 10 <= e <= 12 || e == 16 || 22 <= e <= 23 || e == 26
  }

  function Polynomial(): Register {
    seq(32, i => IsExponent(31 - i))
  }

  function AllOnes(): Register {
    seq(32, i => true)
  }

  function Step(c: Register): Register {
    if c[0] then Xor(Polynomial(), ShiftRight(c, 1)) else ShiftRight(c, 1)
  }

  function Steps(c: Register, k: nat): Register
    decreases k, c
  {
    if k == 0 then c else Steps(Step(c), k - 1)
  }

  /** Entry `n` of the CRC table. */
  function Table(n: Register): Register {
    Steps(n, 8)
  }

  function ByteBits(b: Byte): Register {
    Bits(b as nat, 8) + Clear(24)
  }

  /** `table[(c ^ b) & 0xff] ^ (c >> 8)` */
  function Update(c: Register, b: Byte): Register {
    Xor(Table(LowByte(Xor(c, ByteBits(b)))), ShiftRight(c, 8))
  }

  function Run(c: Register, data: seq<Byte>): Register
    decreases |data|
  {
    if data == [] then c else Run(Update(c, data[0]), data[1..])
  }

  /** `zlib.crc32(data)` */
  function Checksum(data: seq<Byte>): nat {
    Number(Xor(Run(AllOnes(), data), AllOnes()))
  }

  // ----- numbers and their bits

  lemma {:induction false} NumberBound(bits: seq<bool>)
    ensures Number(bits) < Pow2(|bits|)
  {
    if bits != [] {
      NumberBound(bits[1..]);
    }
  }

  lemma ChecksumFits(data: seq<Byte>)
    ensures Checksum(data) < Pow256(4)
  {
    hide Pow2, Pow256, Number, Run, Xor;
    NumberBound(Xor(Run(AllOnes(), data), AllOnes()));
    WordPowers();
  }

  lemma WordPowers()
    ensures Pow2(32) == Pow256(4)
  {
    PowersOfBytes(4);
  }

  lemma {:induction false} PowersOfBytes(k: nat)
    ensures Pow2(8 * k) == Pow256(k)
  {
    if k > 0 {
      PowersOfBytes(k - 1);
      EightMore(8 * (k - 1));
    }
  }

  lemma EightMore(n: nat)
    ensures Pow2(n + 8) == 256 * Pow2(n)
  {
    assert Pow2(n + 2) == 2 * Pow2(n + 1) == 4 * Pow2(n);
    assert Pow2(n + 4) == 2 * Pow2(n + 3) == 4 * Pow2(n + 2);
    assert Pow2(n + 6) == 2 * Pow2(n + 5) == 4 * Pow2(n + 4);
    assert Pow2(n + 8) == 2 * Pow2(n + 7) == 4 * Pow2(n + 6);
  }

  lemma {:induction false} NumberInjective(a: seq<bool>, b: seq<bool>)
    requires |a| == |b| && Number(a) == Number(b)
    ensures a == b
  {
    if a != [] {
      assert a[0] == b[0];
      NumberInjective(a[1..], b[1..]);
      assert a == [a[0]] + a[1..] && b == [b[0]] + b[1..];
    }
  }

  lemma {:induction false} BitsInjective(n: nat, m: nat, k: nat)
    requires n < Pow2(k) && m < Pow2(k)
    requires Bits(n, k) == Bits(m, k)
    ensures n == m
  {
    if k > 0 {
      assert Bits(n, k)[0] == Bits(m, k)[0];
      assert Bits(n, k)[1..] == Bits(n / 2, k - 1) && Bits(m, k)[1..] == Bits(m / 2, k - 1);
      BitsInjective(n / 2, m / 2, k - 1);
    }
  }

  lemma BytesApart(a: Byte, b: Byte)
    requires ByteBits(a) == ByteBits(b)
    ensures a == b
  {
    assert Bits(a as nat, 8) == ByteBits(a)[..8] == ByteBits(b)[..8] == Bits(b as nat, 8);
    assert Pow2(8) == 256;
    BitsInjective(a as nat, b as nat, 8);
  }

  lemma NumberByNibble(bits: seq<bool>, i: nat)
    requires i + 4 <= |bits|
    ensures Number(bits[i..]) == (if bits[i] then 1 else 0) + (if bits[i + 1] then 2 else 0)
                                 + (if bits[i + 2] then 4 else 0) + (if bits[i + 3] then 8 else 0)
                                 + 16 * Number(bits[i + 4..])
  {
    NumberByBit(bits, i);
    NumberByBit(bits, i + 1);
    NumberByBit(bits, i + 2);
    NumberByBit(bits, i + 3);
  }

  lemma NumberByBit(bits: seq<bool>, i: nat)
    requires i < |bits|
    ensures Number(bits[i..]) == (if bits[i] then 1 else 0) + 2 * Number(bits[i + 1..])
  {
    assert bits[i..][1..] == bits[i + 1..];
  }

  lemma PolynomialHighHalf()
    ensures Number(Polynomial()[16..]) == 0xEDB8
  {
    var p := Polynomial();
    assert p[32..] == [];
    NumberByNibble(p, 28);
    NumberByNibble(p, 24);
    NumberByNibble(p, 20);
    NumberByNibble(p, 16);
  }

  lemma PolynomialButLowByte()
    ensures Number(Polynomial()[8..]) == 0xED_B883
  {
    PolynomialHighHalf();
    NumberByNibble(Polynomial(), 12);
    NumberByNibble(Polynomial(), 8);
  }

  lemma PolynomialButNibble()
    ensures Number(Polynomial()[4..]) == 0xEDB_8832
  {
    hide Number;
    PolynomialButLowByte();
    NumberByNibble(Polynomial(), 4);
  }

  /** The generator as the constant of section 8 of RFC 1952 writes it. */
  lemma PolynomialNumber()
    ensures Number(Polynomial()) == 0xEDB8_8320
  {
    hide Number;
    var p := Polynomial();
    PolynomialButNibble();
    var rest := p[4..];
    assert p == [false, false, false, false] + rest;
    NumberOfClearNibble(rest);
  }

  lemma NumberOfClearNibble(bits: seq<bool>)
    ensures Number([false, false, false, false] + bits) == 16 * Number(bits)
  {
    var shifted := [false, false, false, false] + bits;
    NumberByNibble(shifted, 0);
    assert shifted[0..] == shifted && shifted[4..] == bits;
  }

  // ----- a table step is linear, and undoes to a shift when its high byte is clear

  lemma StepLinear(a: Register, b: Register)
    ensures Step(Xor(a, b)) == Xor(Step(a), Step(b))
  {
  }

  lemma {:induction false} StepsLinear(a: Register, b: Register, k: nat)
    ensures Steps(Xor(a, b), k) == Xor(Steps(a, k), Steps(b, k))
    decreases k
  {
    if k > 0 {
      StepLinear(a, b);
      StepsLinear(Step(a), Step(b), k - 1);
    }
  }

  /** The bits of `r` from `n` on are clear. */
  ghost predicate ClearFrom(r: Register, n: nat) {
    forall i :: n <= i < 32 ==> !r[i]
  }

  ghost predicate ClearBelow(r: Register, n: nat) {
    forall i :: 0 <= i < n && i < 32 ==> !r[i]
  }

  lemma {:induction false} StepsOfClear(r: Register, k: nat)
    requires k <= 32 && ClearBelow(r, k)
    ensures Steps(r, k) == ShiftRight(r, k)
    decreases k
  {
    if k == 0 {
      assert ShiftRight(r, 0) == r;
    } else {
      StepsOfClear(Step(r), k - 1);
      assert ShiftRight(ShiftRight(r, 1), k - 1) == ShiftRight(r, k);
    }
  }

  lemma {:induction false} StepsSmall(r: Register, k: nat)
    requires k <= 32 && ClearFrom(Steps(r, k), 32 - k)
    ensures ClearBelow(r, k)
    decreases k
  {
    if k > 0 {
      StepsSmall(Step(r), k - 1);
      StepsOfClear(Step(r), k - 1);
      assert Steps(r, k)[32 - k] == Step(r)[31];
      assert Polynomial()[31];
      assert !r[0];
      assert forall i :: 0 < i < k ==> r[i] == ShiftRight(r, 1)[i - 1];
    }
  }

  /** Looking up the low byte and shifting the rest is the same as eight register steps. */
  lemma UpdateIsSteps(c: Register, b: Byte)
    ensures Update(c, b) == Steps(Xor(c, ByteBits(b)), 8)
  {
    hide Steps, Xor, LowByte, ShiftRight, ByteBits, ClearBelow;
    var x := Xor(c, ByteBits(b));
    var rest := Xor(x, LowByte(x));
    AboveLowByte(c, b);
    StepsLinear(LowByte(x), rest, 8);
    StepsOfClear(rest, 8);
  }

  lemma AboveLowByte(c: Register, b: Byte)
    ensures var x := Xor(c, ByteBits(b));
            var rest := Xor(x, LowByte(x));
            x == Xor(LowByte(x), rest) && ClearBelow(rest, 8) && ShiftRight(rest, 8) == ShiftRight(c, 8)
  {
    hide Bits, Xor, LowByte, ShiftRight;
    var x := Xor(c, ByteBits(b));
    var rest := Xor(x, LowByte(x));
    assert x == Xor(LowByte(x), rest);
    assert ShiftRight(rest, 8) == ShiftRight(c, 8);
  }

  lemma XorRegroup(c: Register, a: Register, d: Register, b: Register)
    ensures Xor(Xor(c, a), Xor(d, b)) == Xor(Xor(c, d), Xor(a, b))
  {
  }

  /** The difference of two registers after one byte each. */
  lemma UpdateDifference(c: Register, a: Byte, d: Register, b: Byte)
    ensures Xor(Update(c, a), Update(d, b)) == Steps(Xor(Xor(c, d), Xor(ByteBits(a), ByteBits(b))), 8)
  {
    var x, y := ByteBits(a), ByteBits(b);
    UpdateIsSteps(c, a);
    UpdateIsSteps(d, b);
    StepsLinear(Xor(c, x), Xor(d, y), 8);
    XorRegroup(c, x, d, y);
  }

  lemma SameRegister(c: Register, d: Register)
    ensures ClearFrom(Xor(c, d), 0) <==> c == d
  {
    if ClearFrom(Xor(c, d), 0) {
      assert forall i :: 0 <= i < 32 ==> !Xor(c, d)[i];
    }
  }

  /** When the difference after a byte has a clear high byte, it is the difference before it, shifted. */
  lemma ByteDifference(c: Register, a: Byte, d: Register, b: Byte)
    requires ClearFrom(Xor(Update(c, a), Update(d, b)), 24)
    ensures forall i :: 8 <= i < 32 ==> Xor(c, d)[i] == Xor(Update(c, a), Update(d, b))[i - 8]
    ensures c == d ==> a == b
  {
    hide Update, Steps, Xor, Bits;
    var before, change, after := Xor(c, d), Xor(ByteBits(a), ByteBits(b)), Xor(Update(c, a), Update(d, b));
    UpdateDifference(c, a, d, b);
    StepsSmall(Xor(before, change), 8);
    StepsOfClear(Xor(before, change), 8);
    assert ClearFrom(change, 8);
    forall i | 8 <= i < 32
      ensures before[i] == after[i - 8]
    {
      assert after[i - 8] == Xor(before, change)[i];
    }
    if c == d {
      forall i | 0 <= i < 32
        ensures !change[i]
      {
        assert !before[i];
        assert i < 8 ==> !Xor(before, change)[i];
      }
      SameRegister(ByteBits(a), ByteBits(b));
      BytesApart(a, b);
    }
  }

  /**
   A register difference that the next `w` bytes (at most four) cancel reaches no higher than those
   bytes; and if there was no difference before them, the bytes are the same.
  */
  lemma {:induction false} WindowDifference(c: Register, x: seq<Byte>, d: Register, y: seq<Byte>)
    requires |x| == |y| <= 4
    requires Run(c, x) == Run(d, y)
    ensures ClearFrom(Xor(c, d), 8 * |x|)
    ensures c == d ==> x == y
    decreases |x|
  {
    hide Update, Xor;
    SameRegister(c, d);
    if x != [] {
      var c1, d1 := Update(c, x[0]), Update(d, y[0]);
      WindowDifference(c1, x[1..], d1, y[1..]);
      ByteDifference(c, x[0], d, y[0]);
      assert x == [x[0]] + x[1..] && y == [y[0]] + y[1..];
    }
  }

  lemma {:induction false} RunConcat(c: Register, x: seq<Byte>, y: seq<Byte>)
    ensures Run(c, x + y) == Run(Run(c, x), y)
    decreases |x|
  {
    if x == [] {
      assert x + y == y;
    } else {
      assert (x + y)[1..] == x[1..] + y;
      RunConcat(Update(c, x[0]), x[1..], y);
    }
  }

  /** Equal bytes keep different registers different. */
  lemma {:induction false} SuffixKeepsApart(c: Register, d: Register, tail: seq<Byte>)
    requires Run(c, tail) == Run(d, tail)
    ensures c == d
    decreases |tail|
  {
    if tail != [] {
      hide Update;
      SuffixKeepsApart(Update(c, tail[0]), Update(d, tail[0]), tail[1..]);
      UpdateDifference(c, tail[0], d, tail[0]);
      var before := Xor(c, d);
      assert Xor(before, Xor(ByteBits(tail[0]), ByteBits(tail[0]))) == before;
      SameRegister(Update(c, tail[0]), Update(d, tail[0]));
      StepsSmall(before, 8);
      StepsOfClear(before, 8);
      forall i | 0 <= i < 32
        ensures !before[i]
      {
        if 8 <= i {
          assert !ShiftRight(before, 8)[i - 8];
        }
      }
      SameRegister(c, d);
    }
  }

  /** `q` is `p` with at most four consecutive bytes replaced. */
  ghost predicate IsBurst(p: seq<Byte>, q: seq<Byte>, at: nat, w: nat) {
    && |p| == |q|
    && w <= 4
    && at + w <= |p|
    && p[..at] == q[..at]
    && p[at + w..] == q[at + w..]
  }

  /** Running over a whole string is running over its head, its window and its tail. */
  lemma RunInThree(c: Register, p: seq<Byte>, at: nat, w: nat)
    requires at + w <= |p|
    ensures Run(c, p) == Run(Run(Run(c, p[..at]), p[at..at + w]), p[at + w..])
  {
    hide Run;
    assert p == p[..at] + (p[at..at + w] + p[at + w..]);
    RunConcat(c, p[..at], p[at..at + w] + p[at + w..]);
    RunConcat(Run(c, p[..at]), p[at..at + w], p[at + w..]);
  }

  /** Strings that differ in one window only differ there. */
  lemma WindowsDiffer(p: seq<Byte>, q: seq<Byte>, at: nat, w: nat)
    requires IsBurst(p, q, at, w) && p != q
    ensures p[at..at + w] != q[at..at + w]
  {
    assert p == p[..at] + p[at..at + w] + p[at + w..] && q == q[..at] + q[at..at + w] + q[at + w..];
  }

  lemma ChecksumDeterminesRegister(p: seq<Byte>, q: seq<Byte>)
    requires Checksum(p) == Checksum(q)
    ensures Run(AllOnes(), p) == Run(AllOnes(), q)
  {
    hide Run;
    var rp, rq := Run(AllOnes(), p), Run(AllOnes(), q);
    NumberInjective(Xor(rp, AllOnes()), Xor(rq, AllOnes()));
    assert rp == Xor(Xor(rp, AllOnes()), AllOnes()) && rq == Xor(Xor(rq, AllOnes()), AllOnes());
  }

  /** Any change confined to four consecutive bytes changes the checksum. */
  lemma BurstChangesChecksum(p: seq<Byte>, q: seq<Byte>, at: nat, w: nat)
    requires IsBurst(p, q, at, w)
    requires p != q
    ensures Checksum(p) != Checksum(q)
  {
    hide Run, Checksum, Xor;
    if Checksum(p) == Checksum(q) {
      ChecksumDeterminesRegister(p, q);
      WindowsDiffer(p, q, at, w);
      RunInThree(AllOnes(), p, at, w);
      RunInThree(AllOnes(), q, at, w);
      var c, x, y := Run(AllOnes(), p[..at]), p[at..at + w], q[at..at + w];
      SuffixKeepsApart(Run(c, x), Run(c, y), p[at + w..]);
      WindowDifference(c, x, c, y);
    }
  }
}
