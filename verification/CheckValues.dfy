/** Values of the checksum: the residue every intact message leaves in the register, and the check value published for
    this code. The register is followed through machine words, as bit vectors. */
module CheckValues {
  import opened Crc32
  import opened Hexadecimal

  // ---------- Bit vectors as words

  predicate Has(x: bv32, mask: bv32) {
    x & mask != 0
  }

  predicate OneBit(mask: bv32) {
    mask != 0 && mask & (mask - 1) == 0
  }

  function Mask(i: nat): bv32 {
    if i == 0 then 1 else Mask(i - 1) << 1
  }

  function BitsOf(x: bv32): Word {
    seq(WIDTH, i requires 0 <= i < WIDTH => Has(x, Mask(i)))
  }

  /** One step of the register on a machine word. */
  function Down(x: bv32): bv32 {
    if x & 1 == 1 then (x >> 1) ^ 0xEDB8_8320 else x >> 1
  }

  function DownEight(x: bv32): bv32 {
    Down(Down(Down(Down(Down(Down(Down(Down(x))))))))
  }

  lemma {:induction false} HasXor(x: bv32, y: bv32, mask: bv32)
    requires OneBit(mask)
    ensures Has(x ^ y, mask) == (Has(x, mask) != Has(y, mask))
  {
  }

  lemma {:induction false} HasShift(x: bv32, mask: bv32)
    ensures mask & 0x8000_0000 == 0 ==> Has(x >> 1, mask) == Has(x, mask << 1)
    ensures mask == 0x8000_0000 ==> !Has(x >> 1, mask)
  {
  }

  lemma {:induction false} MaskValues()
    ensures Mask(0) == 0x1 && Mask(1) == 0x2 && Mask(2) == 0x4 && Mask(3) == 0x8
    ensures Mask(4) == 0x10 && Mask(5) == 0x20 && Mask(6) == 0x40 && Mask(7) == 0x80
    ensures Mask(8) == 0x100 && Mask(9) == 0x200 && Mask(10) == 0x400 && Mask(11) == 0x800
    ensures Mask(12) == 0x1000 && Mask(13) == 0x2000 && Mask(14) == 0x4000 && Mask(15) == 0x8000
    ensures Mask(16) == 0x10000 && Mask(17) == 0x20000 && Mask(18) == 0x40000 && Mask(19) == 0x80000
    ensures Mask(20) == 0x100000 && Mask(21) == 0x200000 && Mask(22) == 0x400000 && Mask(23) == 0x800000
    ensures Mask(24) == 0x1000000 && Mask(25) == 0x2000000 && Mask(26) == 0x4000000 && Mask(27) == 0x8000000
    ensures Mask(28) == 0x10000000 && Mask(29) == 0x20000000 && Mask(30) == 0x40000000 && Mask(31) == 0x80000000
  {
    assert Mask(0) == 0x1 && Mask(1) == 0x2 && Mask(2) == 0x4 && Mask(3) == 0x8;
    assert Mask(4) == 0x10 && Mask(5) == 0x20 && Mask(6) == 0x40 && Mask(7) == 0x80;
    assert Mask(8) == 0x100 && Mask(9) == 0x200 && Mask(10) == 0x400 && Mask(11) == 0x800;
    assert Mask(12) == 0x1000 && Mask(13) == 0x2000 && Mask(14) == 0x4000 && Mask(15) == 0x8000;
    assert Mask(16) == 0x10000 && Mask(17) == 0x20000 && Mask(18) == 0x40000 && Mask(19) == 0x80000;
    assert Mask(20) == 0x100000 && Mask(21) == 0x200000 && Mask(22) == 0x400000 && Mask(23) == 0x800000;
    assert Mask(24) == 0x1000000 && Mask(25) == 0x2000000 && Mask(26) == 0x4000000 && Mask(27) == 0x8000000;
    assert Mask(28) == 0x10000000 && Mask(29) == 0x20000000 && Mask(30) == 0x40000000 && Mask(31) == 0x80000000;
  }

  lemma {:induction false} MaskOne(i: nat)
    requires i < WIDTH
    ensures OneBit(Mask(i)) && (i < 31 ==> Mask(i) & 0x8000_0000 == 0) && (i == 31 ==> Mask(i) == 0x8000_0000)
  {
    MaskValues();
  }

  lemma {:induction false} XorBits(x: bv32, y: bv32)
    ensures BitsOf(x ^ y) == Xor(BitsOf(x), BitsOf(y))
  {
    forall i | 0 <= i < WIDTH ensures BitsOf(x ^ y)[i] == Xor(BitsOf(x), BitsOf(y))[i] {
      MaskOne(i);
      HasXor(x, y, Mask(i));
    }
  }

  lemma {:induction false} ShiftBits(x: bv32)
    ensures BitsOf(x >> 1) == Shift(BitsOf(x))
  {
    forall i | 0 <= i < WIDTH ensures BitsOf(x >> 1)[i] == Shift(BitsOf(x))[i] {
      MaskOne(i);
      HasShift(x, Mask(i));
    }
  }

  lemma {:induction false} LowestBit(x: bv32)
    ensures BitsOf(x)[0] == (x & 1 == 1)
  {
    assert Mask(0) == 1;
  }

  lemma {:induction false} DownBits(x: bv32)
    ensures BitsOf(Down(x)) == Step(BitsOf(x), BitsOf(0xEDB8_8320))
  {
    var shifted := x >> 1;
    XorBits(shifted, 0xEDB8_8320);
    ShiftBits(x);
    LowestBit(x);
  }

  lemma {:induction false} StepsOne(w: Word, n: nat, p: Word)
    requires n > 0
    ensures Steps(w, n, p) == Steps(Step(w, p), n - 1, p)
  {
  }

  lemma {:induction false} DownTwo(x: bv32, n: nat, p: Word)
    requires n >= 2 && p == BitsOf(0xEDB8_8320)
    ensures Steps(BitsOf(x), n, p) == Steps(BitsOf(Down(Down(x))), n - 2, p)
  {
    DownBits(x);
    DownBits(Down(x));
    StepsOne(BitsOf(x), n, p);
    StepsOne(BitsOf(Down(x)), n - 1, p);
  }

  lemma {:induction false} DownEightBits(x: bv32, n: nat, p: Word)
    requires n >= 8 && p == BitsOf(0xEDB8_8320)
    ensures Steps(BitsOf(x), n, p) == Steps(BitsOf(DownEight(x)), n - 8, p)
  {
    DownTwo(x, n, p);
    DownTwo(Down(Down(x)), n - 2, p);
    DownTwo(Down(Down(Down(Down(x)))), n - 4, p);
    DownTwo(Down(Down(Down(Down(Down(Down(x)))))), n - 6, p);
  }

  // ---------- Constants

  /** Four bits of a bit vector are those of a hexadecimal digit. */
  predicate Same(x: bv32, d: nat, m1: bv32, m2: bv32, m4: bv32, m8: bv32) {
    Has(x, m1) == (d % 2 == 1) && Has(x, m2) == (d / 2 % 2 == 1) && Has(x, m4) == (d / 4 % 2 == 1) && Has(x, m8) == (d / 8 % 2 == 1)
  }

  predicate SameWord(x: bv32, h: nat, g: nat, f: nat, e: nat, d: nat, c: nat, b: nat, a: nat) {
    && Same(x, a, 0x1, 0x2, 0x4, 0x8) && Same(x, b, 0x10, 0x20, 0x40, 0x80)
    && Same(x, c, 0x100, 0x200, 0x400, 0x800) && Same(x, d, 0x1000, 0x2000, 0x4000, 0x8000)
    && Same(x, e, 0x10000, 0x20000, 0x40000, 0x80000) && Same(x, f, 0x100000, 0x200000, 0x400000, 0x800000)
    && Same(x, g, 0x1000000, 0x2000000, 0x4000000, 0x8000000) && Same(x, h, 0x10000000, 0x20000000, 0x40000000, 0x80000000)
  }

  lemma {:induction false} FourBits(w: seq<bool>, i: nat, a: bool, b: bool, c: bool, d: bool)
    requires i + 4 <= |w| && w[i] == a && w[i + 1] == b && w[i + 2] == c && w[i + 3] == d
    ensures w[i..i + 4] == [a, b, c, d]
  {
  }

  lemma {:induction false} NibbleAt(x: bv32, d: nat, i: nat)
    requires i + 4 <= WIDTH && Same(x, d, Mask(i), Mask(i + 1), Mask(i + 2), Mask(i + 3))
    ensures BitsOf(x)[i..i + 4] == Digit(d)
  {
    FourBits(BitsOf(x), i, d % 2 == 1, d / 2 % 2 == 1, d / 4 % 2 == 1, d / 8 % 2 == 1);
  }

  lemma {:induction false} Joined(w: seq<bool>, i: nat, j: nat, k: nat)
    requires i <= j <= k <= |w|
    ensures w[i..k] == w[i..j] + w[j..k]
  {
  }

  lemma {:induction false} Pieces(w: seq<bool>, i: nat)
    requires i + 16 <= |w|
    ensures w[i..i + 16] == w[i..i + 4] + w[i + 4..i + 8] + w[i + 8..i + 12] + w[i + 12..i + 16]
  {
    Joined(w, i, i + 4, i + 8);
    Joined(w, i, i + 8, i + 12);
    Joined(w, i, i + 12, i + 16);
  }

  lemma {:induction false} LowHalf(x: bv32, d: nat, c: nat, b: nat, a: nat)
    requires Same(x, a, 0x1, 0x2, 0x4, 0x8) && Same(x, b, 0x10, 0x20, 0x40, 0x80)
    requires Same(x, c, 0x100, 0x200, 0x400, 0x800) && Same(x, d, 0x1000, 0x2000, 0x4000, 0x8000)
    ensures BitsOf(x)[0..16] == Digit(a) + Digit(b) + Digit(c) + Digit(d)
  {
    MaskValues();
    NibbleAt(x, a, 0);
    NibbleAt(x, b, 4);
    NibbleAt(x, c, 8);
    NibbleAt(x, d, 12);
    Pieces(BitsOf(x), 0);
  }

  lemma {:induction false} HighHalf(x: bv32, h: nat, g: nat, f: nat, e: nat)
    requires Same(x, e, 0x10000, 0x20000, 0x40000, 0x80000) && Same(x, f, 0x100000, 0x200000, 0x400000, 0x800000)
    requires Same(x, g, 0x1000000, 0x2000000, 0x4000000, 0x8000000) && Same(x, h, 0x10000000, 0x20000000, 0x40000000, 0x80000000)
    ensures BitsOf(x)[16..32] == Digit(e) + Digit(f) + Digit(g) + Digit(h)
  {
    MaskValues();
    NibbleAt(x, e, 16);
    NibbleAt(x, f, 20);
    NibbleAt(x, g, 24);
    NibbleAt(x, h, 28);
    Pieces(BitsOf(x), 16);
  }

  lemma {:induction false} Halves(w: Word, l: seq<bool>, a: seq<bool>, b: seq<bool>, c: seq<bool>, d: seq<bool>)
    requires w[0..16] == l && w[16..32] == a + b + c + d
    ensures w == l + a + b + c + d
  {
    assert w == w[0..16] + w[16..32];
  }

  /** A bit vector and a number with the same hexadecimal digits are the same word. */
  lemma {:induction false} WordIs(x: bv32, n: nat, h: nat, g: nat, f: nat, e: nat, d: nat, c: nat, b: nat, a: nat)
    requires h < 16 && g < 16 && f < 16 && e < 16 && d < 16 && c < 16 && b < 16 && a < 16
    requires SameWord(x, h, g, f, e, d, c, b, a)
    requires n == a + 16 * (b + 16 * (c + 16 * (d + 16 * (e + 16 * (f + 16 * (g + 16 * h))))))
    ensures BitsOf(x) == Low(n, WIDTH)
  {
    LowHalf(x, d, c, b, a);
    HighHalf(x, h, g, f, e);
    Halves(BitsOf(x), Digit(a) + Digit(b) + Digit(c) + Digit(d), Digit(e), Digit(f), Digit(g), Digit(h));
    HexBitsEight(h, g, f, e, d, c, b, a);
    LowEight(n, h, g, f, e, d, c, b, a);
  }

  lemma {:induction false} PolynomialWord()
    ensures BitsOf(0xEDB8_8320) == POLYNOMIAL
  {
    WordIs(0xEDB8_8320, 0xEDB8_8320, 0xE, 0xD, 0xB, 0x8, 0x8, 0x3, 0x2, 0x0);
  }

  lemma {:induction false} OnesWord()
    ensures BitsOf(0xFFFF_FFFF) == ALL_ONES
  {
    forall i | 0 <= i < WIDTH ensures BitsOf(0xFFFF_FFFF)[i] {
      MaskOne(i);
      assert 0xFFFF_FFFF & Mask(i) == Mask(i);
    }
  }

  // ---------- The residue

  lemma {:induction false} ResidueWords()
    ensures DownEight(0xFFFF_FFFF) == 0x2DFD_1072
    ensures DownEight(0x2DFD_1072) == 0xBE26_ED00
    ensures DownEight(0xBE26_ED00) == 0x00BE_26ED
    ensures DownEight(0x00BE_26ED) == 0xDEBB_20E3
  {
  }

  lemma {:induction false} ResidueWord()
    ensures BitsOf(0xDEBB_20E3) == Low(0xDEBB_20E3, WIDTH)
  {
    WordIs(0xDEBB_20E3, 0xDEBB_20E3, 0xD, 0xE, 0xB, 0xB, 0x2, 0x0, 0xE, 0x3);
  }

  lemma {:induction false} TwoTimes(x0: bv32, x1: bv32, x2: bv32, n: nat)
    requires x1 == DownEight(x0) && x2 == DownEight(x1) && n >= 16
    ensures Steps(BitsOf(x0), n, POLYNOMIAL) == Steps(BitsOf(x2), n - 16, POLYNOMIAL)
  {
    PolynomialWord();
    DownEightBits(x0, n, POLYNOMIAL);
    DownEightBits(x1, n - 8, POLYNOMIAL);
  }

  lemma {:induction false} FourTimes(x0: bv32, x1: bv32, x2: bv32, x3: bv32, x4: bv32, n: nat)
    requires x1 == DownEight(x0) && x2 == DownEight(x1) && x3 == DownEight(x2) && x4 == DownEight(x3) && n == WIDTH
    ensures Steps(BitsOf(x0), n, POLYNOMIAL) == BitsOf(x4)
  {
    TwoTimes(x0, x1, x2, n);
    TwoTimes(x2, x3, x4, n - 16);
    assert Steps(BitsOf(x4), 0, POLYNOMIAL) == BitsOf(x4);
  }

  /** Every message that arrives intact with its checksum leaves the word 0xDEBB20E3 in the register. */
  lemma {:induction false} FixedResidue(data: seq<byte>)
    ensures Feed(ALL_ONES, BitString(data) + Checksum(data), POLYNOMIAL) == Low(0xDEBB_20E3, WIDTH)
  {
    IntactResidue(data);
    OnesWord();
    ResidueWords();
    FourTimes(0xFFFF_FFFF, 0x2DFD_1072, 0xBE26_ED00, 0x00BE_26ED, 0xDEBB_20E3, WIDTH);
    ResidueWord();
  }

  // ---------- The check value

  /** Entering a byte and eight steps. */
  lemma {:induction false} ByteIn(x: bv32, b: byte, entering: bv32)
    requires BitsOf(entering) == Low(b as nat, WIDTH)
    ensures Feed(BitsOf(x), Low(b as nat, 8), POLYNOMIAL) == BitsOf(DownEight(x ^ entering))
  {
    var bits := Low(b as nat, 8);
    PolynomialWord();
    FeedPadded(BitsOf(x), bits, POLYNOMIAL);
    BytePads(b);
    XorBits(x, entering);
    DownEightBits(x ^ entering, 8, POLYNOMIAL);
    assert Steps(BitsOf(DownEight(x ^ entering)), 0, POLYNOMIAL) == BitsOf(DownEight(x ^ entering));
  }

  /** `x` is in the register after the first `i` bytes. */
  ghost predicate Holds(data: seq<byte>, i: nat, x: bv32) {
    i <= |data| && Feed(ALL_ONES, BitString(data[..i]), POLYNOMIAL) == BitsOf(x)
  }

  /** The character of a decimal digit. */
  predicate Character(x: bv32, d: nat) {
    Same(x, d, 0x1, 0x2, 0x4, 0x8) && x & 0xFFFF_FFF0 == 0x30
  }

  lemma {:induction false} SmallWord(x: bv32, d: nat)
    requires Character(x, d)
    ensures SameWord(x, 0, 0, 0, 0, 0, 0, 3, d)
  {
  }

  lemma {:induction false} DigitWord(x: bv32, n: nat, d: nat)
    requires d < 16 && n == 0x30 + d && Character(x, d)
    ensures BitsOf(x) == Low(n, WIDTH)
  {
    SmallWord(x, d);
    WordIs(x, n, 0, 0, 0, 0, 0, 0, 3, d);
  }

  /** A decimal digit goes through. */
  lemma {:induction false} DigitIn(data: seq<byte>, i: nat, d: nat, x: bv32, entering: bv32, next: bv32)
    requires i < |data| && Holds(data, i, x) && d < 10 && data[i] as nat == 0x30 + d
    requires Character(entering, d) && next == DownEight(x ^ entering)
    ensures Holds(data, i + 1, next)
  {
    DigitWord(entering, data[i] as nat, d);
    FeedByte(ALL_ONES, data, i, POLYNOMIAL);
    ByteIn(x, data[i], entering);
  }

  /** The digits 1 to 9 as characters. */
  predicate NineDigits(data: seq<byte>) {
    |data| == 9 && forall i :: 0 <= i < 9 ==> data[i] as nat == 0x31 + i
  }

  /** The characters from digit `d` on take the register from `x0` over `x1` and `x2` to `x3`. */
  predicate Pass(d: nat, x0: bv32, x1: bv32, x2: bv32, x3: bv32, e0: bv32, e1: bv32, e2: bv32) {
    && Character(e0, d) && x1 == DownEight(x0 ^ e0)
    && Character(e1, d + 1) && x2 == DownEight(x1 ^ e1)
    && Character(e2, d + 2) && x3 == DownEight(x2 ^ e2)
  }

  lemma {:induction false} ThreeIn(data: seq<byte>, i: nat, x0: bv32, x1: bv32, x2: bv32, x3: bv32, e0: bv32, e1: bv32, e2: bv32)
    requires NineDigits(data) && i + 3 <= 9 && Holds(data, i, x0) && Pass(i + 1, x0, x1, x2, x3, e0, e1, e2)
    ensures Holds(data, i + 3, x3)
  {
    DigitIn(data, i, i + 1, x0, e0, x1);
    DigitIn(data, i + 1, i + 2, x1, e1, x2);
    DigitIn(data, i + 2, i + 3, x2, e2, x3);
  }

  lemma {:induction false} NothingIn(data: seq<byte>)
    ensures Holds(data, 0, 0xFFFF_FFFF)
  {
    OnesWord();
    assert data[..0] == [];
  }

  lemma {:induction false} OneToThree()
    ensures Pass(1, 0xFFFF_FFFF, 0x7C23_1048, 0xB0AC_BB32, 0x77B7_9C2D, 0x31, 0x32, 0x33)
  {
  }

  lemma {:induction false} FourToSix()
    ensures Pass(4, 0x77B7_9C2D, 0x641C_1F5C, 0x340A_C5E3, 0xF68D_2C9E, 0x34, 0x35, 0x36)
  {
  }

  lemma {:induction false} SevenToNine()
    ensures Pass(7, 0xF68D_2C9E, 0xAFFC_9660, 0x651F_2550, 0x340B_C6D9, 0x37, 0x38, 0x39)
  {
  }

  lemma {:induction false} FirstPass(data: seq<byte>)
    requires NineDigits(data) && Holds(data, 0, 0xFFFF_FFFF)
    ensures Holds(data, 3, 0x77B7_9C2D)
  {
    OneToThree();
    ThreeIn(data, 0, 0xFFFF_FFFF, 0x7C23_1048, 0xB0AC_BB32, 0x77B7_9C2D, 0x31, 0x32, 0x33);
  }

  lemma {:induction false} SecondPass(data: seq<byte>)
    requires NineDigits(data) && Holds(data, 3, 0x77B7_9C2D)
    ensures Holds(data, 6, 0xF68D_2C9E)
  {
    FourToSix();
    ThreeIn(data, 3, 0x77B7_9C2D, 0x641C_1F5C, 0x340A_C5E3, 0xF68D_2C9E, 0x34, 0x35, 0x36);
  }

  lemma {:induction false} ThirdPass(data: seq<byte>)
    requires NineDigits(data) && Holds(data, 6, 0xF68D_2C9E)
    ensures Holds(data, 9, 0x340B_C6D9)
  {
    SevenToNine();
    ThreeIn(data, 6, 0xF68D_2C9E, 0xAFFC_9660, 0x651F_2550, 0x340B_C6D9, 0x37, 0x38, 0x39);
  }

  lemma {:induction false} CheckWord()
    ensures BitsOf(0xCBF4_3926) == Low(0xCBF4_3926, WIDTH)
  {
    WordIs(0xCBF4_3926, 0xCBF4_3926, 0xC, 0xB, 0xF, 0x4, 0x3, 0x9, 0x2, 0x6);
  }

  lemma {:induction false} Complemented(data: seq<byte>, x: bv32, y: bv32)
    requires Holds(data, |data|, x) && y == x ^ 0xFFFF_FFFF
    ensures Checksum(data) == BitsOf(y)
  {
    assert data[..|data|] == data;
    OnesWord();
    XorBits(x, 0xFFFF_FFFF);
  }

  /** The published check value of this code: the checksum of the characters 1 to 9 is 0xCBF43926. */
  lemma {:induction false} CheckValue(data: seq<byte>)
    requires NineDigits(data)
    ensures Checksum(data) == Low(0xCBF4_3926, WIDTH)
  {
    NothingIn(data);
    FirstPass(data);
    SecondPass(data);
    ThirdPass(data);
    Complemented(data, 0x340B_C6D9, 0xCBF4_3926);
    CheckWord();
  }

  /** And nothing sums to nothing. */
  lemma {:induction false} EmptyValue()
    ensures Checksum([]) == Low(0, WIDTH)
  {
    WordIs(0, 0, 0, 0, 0, 0, 0, 0, 0, 0);
    OnesWord();
    XorBits(0xFFFF_FFFF, 0xFFFF_FFFF);
  }
}
