/** The check sequence of messages: CRC-32 with the reflected polynomial of section 3.2.9 of
    IEEE Std 802.3, computed as in section 8 of RFC 1952. */
module Crc32 {
  import B = Bits
  import P = Polynomials
  import H = Hexadecimal
  import opened Sequences
  type byte = B.byte
  type uint32 = B.uint32

  // ---------- The register as 32 bits, lowest first

  const WIDTH := 32
  type Word = w: seq<bool> | |w| == WIDTH witness Repeat(false, WIDTH)

  function Repeat(b: bool, n: nat): (r: seq<bool>)
    ensures |r| == n && forall i :: 0 <= i < n ==> r[i] == b
    decreases n, b
  {
    if n == 0 then [] else [b] + Repeat(b, n - 1)
  }

  /** The low `n` bits of a number, lowest first. */
  function Low(c: nat, n: nat): (bits: seq<bool>)
    ensures |bits| == n
    decreases n, c
  {
    if n == 0 then [] else [c % 2 == 1] + Low(c / 2, n - 1)
  }

  const POLYNOMIAL: Word := Low(0xEDB8_8320, WIDTH)

  const ALL_ONES: Word := Repeat(true, WIDTH)

  function Xor(a: seq<bool>, b: seq<bool>): (c: seq<bool>)
    requires |a| == |b|
    ensures |c| == |a|
  {
    seq(|a|, i requires 0 <= i < |a| => a[i] != b[i])
  }

  function Complement(w: Word): Word {
    Xor(w, ALL_ONES)
  }

  function Shift(w: Word): Word {
    w[1..] + [false]
  }

  /** One division step by the polynomial `p`. */
  function Step(w: Word, p: Word): Word {
    if w[0] then Xor(Shift(w), p) else Shift(w)
  }

  function Steps(w: Word, n: nat, p: Word): Word
    decreases n
  {
    if n == 0 then w else Steps(Step(w, p), n - 1, p)
  }

  function Enter(w: Word, b: bool): Word {
    w[0 := w[0] != b]
  }

  /** The check sequence bit by bit: every message bit enters at the low end of the register. */
  function Feed(w: Word, bits: seq<bool>, p: Word): Word
    decreases |bits|
  {
    if bits == [] then w else Feed(Step(Enter(w, bits[0]), p), bits[1..], p)
  }

  /** The bits of a message in transmission order, least significant of each byte first. */
  function BitString(data: seq<byte>): (bits: seq<bool>)
    ensures |bits| == 8 * |data|
  {
    if data == [] then [] else Low(data[0] as nat, 8) + BitString(data[1..])
  }

  /** The checksum of a message: all ones in, message bits through, complemented. */
  function Checksum(data: seq<byte>): Word {
    Complement(Feed(ALL_ONES, BitString(data), POLYNOMIAL))
  }

  // ---------- Linearity and injectivity

  lemma {:induction false} StepLinear(v: Word, w: Word, p: Word)
    ensures Step(Xor(v, w), p) == Xor(Step(v, p), Step(w, p))
  {
  }

  /** The register is linear in its start and in the message. */
  lemma {:induction false} FeedLinear(v: Word, w: Word, a: seq<bool>, b: seq<bool>, p: Word)
    requires |a| == |b|
    ensures Feed(Xor(v, w), Xor(a, b), p) == Xor(Feed(v, a, p), Feed(w, b, p))
    decreases |a|
  {
    if a != [] {
      assert Enter(Xor(v, w), Xor(a, b)[0]) == Xor(Enter(v, a[0]), Enter(w, b[0]));
      StepLinear(Enter(v, a[0]), Enter(w, b[0]), p);
      assert Xor(a, b)[1..] == Xor(a[1..], b[1..]);
      FeedLinear(Step(Enter(v, a[0]), p), Step(Enter(w, b[0]), p), a[1..], b[1..], p);
    }
  }

  /** With its highest bit set, the polynomial records the bit a step drops. */
  lemma {:induction false} StepInjective(v: Word, w: Word, p: Word)
    requires p[31] && Step(v, p) == Step(w, p)
    ensures v == w
  {
    assert Step(v, p)[31] == v[0] && Step(w, p)[31] == w[0];
    forall i | 0 < i < WIDTH ensures v[i] == w[i] {
      assert Step(v, p)[i - 1] == (v[i] != (v[0] && p[i - 1]));
      assert Step(w, p)[i - 1] == (w[i] != (w[0] && p[i - 1]));
    }
  }

  lemma {:induction false} StepsInjective(v: Word, w: Word, n: nat, p: Word)
    requires p[31] && Steps(v, n, p) == Steps(w, n, p)
    ensures v == w
    decreases n
  {
    if n > 0 {
      StepsInjective(Step(v, p), Step(w, p), n - 1, p);
      StepInjective(v, w, p);
    }
  }

  /** The same bits lead different registers to different registers. */
  lemma {:induction false} FeedInjective(v: Word, w: Word, bits: seq<bool>, p: Word)
    requires p[31] && Feed(v, bits, p) == Feed(w, bits, p)
    ensures v == w
    decreases |bits|
  {
    if bits != [] {
      var x, y := Enter(v, bits[0]), Enter(w, bits[0]);
      FeedInjective(Step(x, p), Step(y, p), bits[1..], p);
      StepInjective(x, y, p);
      assert v == Enter(x, bits[0]) && w == Enter(y, bits[0]);
    }
  }

  lemma {:induction false} FeedConcat(w: Word, a: seq<bool>, b: seq<bool>, p: Word)
    ensures Feed(w, a + b, p) == Feed(Feed(w, a, p), b, p)
    decreases |a|
  {
    if a == [] {
      assert a + b == b;
    } else {
      assert (a + b)[1..] == a[1..] + b && (a + b)[0] == a[0];
      FeedConcat(Step(Enter(w, a[0]), p), a[1..], b, p);
    }
  }

  lemma {:induction false} LowTop(c: nat, n: nat)
    requires n > 0 && B.Pow2(n - 1) <= c < B.Pow2(n)
    ensures Low(c, n)[n - 1]
    decreases n
  {
    if n > 1 {
      LowTop(c / 2, n - 1);
    }
  }

  lemma {:induction false} PolynomialTop()
    ensures POLYNOMIAL[31]
  {
    B.Pow2Of32();
    LowTop(0xEDB8_8320, WIDTH);
  }

  // ---------- Up to 32 bits at once

  function Pad(bits: seq<bool>): Word
    requires |bits| <= WIDTH
  {
    bits + Repeat(false, WIDTH - |bits|)
  }

  lemma {:induction false} StepPadded(w: Word, bits: seq<bool>, p: Word)
    requires 0 < |bits| <= WIDTH
    ensures Step(Xor(w, Pad(bits)), p) == Xor(Step(Enter(w, bits[0]), p), Pad(bits[1..]))
  {
  }

  /** Entering up to 32 bits one by one is entering them all first and then stepping. */
  lemma {:induction false} FeedPadded(w: Word, bits: seq<bool>, p: Word)
    requires |bits| <= WIDTH
    ensures Feed(w, bits, p) == Steps(Xor(w, Pad(bits)), |bits|, p)
    decreases |bits|
  {
    if bits == [] {
      assert Xor(w, Pad(bits)) == w;
    } else {
      StepPadded(w, bits, p);
      FeedPadded(Step(Enter(w, bits[0]), p), bits[1..], p);
    }
  }

  lemma {:induction false} PadInjective(w: Word, a: seq<bool>, b: seq<bool>)
    requires |a| == |b| <= WIDTH && Xor(w, Pad(a)) == Xor(w, Pad(b))
    ensures a == b
  {
    forall i | 0 <= i < |a| ensures a[i] == b[i] {
      assert Xor(w, Pad(a))[i] == (w[i] != a[i]) && Xor(w, Pad(b))[i] == (w[i] != b[i]);
    }
  }

  /** Two different messages of up to 32 bits lead any register to different registers. */
  lemma {:induction false} ShortMessages(w: Word, a: seq<bool>, b: seq<bool>, p: Word)
    requires p[31] && |a| == |b| <= WIDTH && Feed(w, a, p) == Feed(w, b, p)
    ensures a == b
  {
    FeedPadded(w, a, p);
    FeedPadded(w, b, p);
    StepsInjective(Xor(w, Pad(a)), Xor(w, Pad(b)), |a|, p);
    PadInjective(w, a, b);
  }

  // ---------- Error detection

  lemma {:induction false} FeedThree(w: Word, a: seq<bool>, m: seq<bool>, z: seq<bool>, p: Word)
    ensures Feed(w, a + m + z, p) == Feed(Feed(Feed(w, a, p), m, p), z, p)
  {
    FeedConcat(w, a + m, z, p);
    FeedConcat(w, a, m, p);
  }

  /** A change confined to a window of 32 bits changes the register. */
  lemma {:induction false} WindowDetected(w: Word, a: seq<bool>, m: seq<bool>, m': seq<bool>, z: seq<bool>, p: Word)
    requires p[31] && |m| == |m'| <= WIDTH && m != m'
    ensures Feed(w, a + m + z, p) != Feed(w, a + m' + z, p)
  {
    FeedThree(w, a, m, z, p);
    FeedThree(w, a, m', z, p);
    if Feed(w, a + m + z, p) == Feed(w, a + m' + z, p) {
      var v := Feed(w, a, p);
      FeedInjective(Feed(v, m, p), Feed(v, m', p), z, p);
      ShortMessages(v, m, m', p);
    }
  }

  /** Two equally long messages differ at most in the 32 bits from bit `i` on. */
  ghost predicate DifferWithin(a: seq<byte>, b: seq<byte>, i: nat)
    requires |a| == |b|
  {
    forall k :: 0 <= k < 8 * |a| && BitString(a)[k] != BitString(b)[k] ==> i <= k < i + WIDTH
  }

  lemma {:induction false} LowInjective(c: nat, d: nat, n: nat)
    requires c < B.Pow2(n) && d < B.Pow2(n) && Low(c, n) == Low(d, n)
    ensures c == d
    decreases n
  {
    if n > 0 {
      assert Low(c, n)[0] == Low(d, n)[0] && Low(c, n)[1..] == Low(d, n)[1..];
      LowInjective(c / 2, d / 2, n - 1);
    }
  }

  lemma {:induction false} BitStringInjective(a: seq<byte>, b: seq<byte>)
    requires BitString(a) == BitString(b)
    ensures a == b
  {
    if a != [] {
      assert BitString(a)[..8] == Low(a[0] as nat, 8) && BitString(b)[..8] == Low(b[0] as nat, 8);
      assert BitString(a)[8..] == BitString(a[1..]) && BitString(b)[8..] == BitString(b[1..]);
      assert B.Pow2(8) == 256;
      LowInjective(a[0] as nat, b[0] as nat, 8);
      BitStringInjective(a[1..], b[1..]);
      assert a == [a[0]] + a[1..] && b == [b[0]] + b[1..];
    }
  }

  lemma {:induction false} ComplementInjective(v: Word, w: Word)
    requires Complement(v) == Complement(w)
    ensures v == w
  {
    forall i | 0 <= i < WIDTH ensures v[i] == w[i] {
      assert Complement(v)[i] == !v[i] && Complement(w)[i] == !w[i];
    }
  }

  lemma {:induction false} CutOut(x: seq<bool>, lo: nat, hi: nat)
    requires lo <= hi <= |x|
    ensures x == x[..lo] + x[lo..hi] + x[hi..]
  {
  }

  /** Every error burst of up to 32 bits is detected, in messages of any length, at any bit offset. */
  lemma {:induction false} BurstDetected(a: seq<byte>, b: seq<byte>, i: nat)
    requires |a| == |b| && a != b && DifferWithin(a, b, i)
    ensures Checksum(a) != Checksum(b)
  {
    var x, y := BitString(a), BitString(b);
    var n := |x|;
    var lo := if i < n then i else n;
    var hi := if i + WIDTH < n then i + WIDTH else n;
    assert x[..lo] == y[..lo] && x[hi..] == y[hi..];
    CutOut(x, lo, hi);
    CutOut(y, lo, hi);
    if x == y {
      BitStringInjective(a, b);
    }
    PolynomialTop();
    WindowDetected(ALL_ONES, x[..lo], x[lo..hi], y[lo..hi], x[hi..], POLYNOMIAL);
    if Checksum(a) == Checksum(b) {
      ComplementInjective(Feed(ALL_ONES, x, POLYNOMIAL), Feed(ALL_ONES, y, POLYNOMIAL));
    }
  }

  /** The limit of detection: a burst of 33 bits goes unnoticed exactly when, after its first bit, it
      is the generator polynomial. */
  lemma {:induction false} Burst33(w: Word, a: seq<bool>, b: bool, m: seq<bool>, m': seq<bool>, z: seq<bool>, p: Word)
    requires p[31] && |m| == |m'| == WIDTH
    ensures Feed(w, a + ([b] + m) + z, p) == Feed(w, a + ([!b] + m') + z, p) <==> Xor(m, m') == p
  {
    FeedThree(w, a, [b] + m, z, p);
    FeedThree(w, a, [!b] + m', z, p);
    var v := Feed(w, a, p);
    Burst33Head(v, b, m, m', p);
    if Feed(w, a + ([b] + m) + z, p) == Feed(w, a + ([!b] + m') + z, p) {
      FeedInjective(Feed(v, [b] + m, p), Feed(v, [!b] + m', p), z, p);
    }
  }

  lemma {:induction false} Burst33Head(v: Word, b: bool, m: seq<bool>, m': seq<bool>, p: Word)
    requires p[31] && |m| == |m'| == WIDTH
    ensures Feed(v, [b] + m, p) == Feed(v, [!b] + m', p) <==> Xor(m, m') == p
  {
    var x, y := Step(Enter(v, b), p), Step(Enter(v, !b), p);
    assert ([b] + m)[1..] == m && ([!b] + m')[1..] == m';
    FlipFirst(v, b, p);
    FeedPadded(x, m, p);
    FeedPadded(y, m', p);
    assert Pad(m) == m && Pad(m') == m';
    CancelPolynomial(x, m, m', p);
    if Feed(x, m, p) == Feed(y, m', p) {
      StepsInjective(Xor(x, m), Xor(y, m'), WIDTH, p);
    }
  }

  lemma {:induction false} FlipFirst(v: Word, b: bool, p: Word)
    ensures Step(Enter(v, !b), p) == Xor(Step(Enter(v, b), p), p)
  {
  }

  lemma {:induction false} CancelPolynomial(x: Word, m: seq<bool>, m': seq<bool>, p: Word)
    requires |m| == |m'| == WIDTH
    ensures Xor(x, m) == Xor(Xor(x, p), m') <==> Xor(m, m') == p
  {
    var l, r := Xor(x, m), Xor(Xor(x, p), m');
    assert forall i :: 0 <= i < WIDTH ==> (l[i] == r[i] <==> Xor(m, m')[i] == p[i]);
  }

  /** A message followed by its own check sequence leaves the register empty. */
  lemma {:induction false} Residue(w: Word, bits: seq<bool>, p: Word)
    ensures Feed(w, bits + Feed(w, bits, p), p) == Repeat(false, WIDTH)
  {
    var r := Feed(w, bits, p);
    FeedConcat(w, bits, r, p);
    FeedPadded(r, r, p);
    assert Pad(r) == r && Xor(r, r) == Repeat(false, WIDTH);
    StepsZero(WIDTH, p);
  }

  /** An intact message with its checksum behind it leaves the same word in the register, whatever the message. */
  lemma {:induction false} IntactResidue(data: seq<byte>)
    ensures Feed(ALL_ONES, BitString(data) + Checksum(data), POLYNOMIAL) == Steps(ALL_ONES, WIDTH, POLYNOMIAL)
  {
    var r := Feed(ALL_ONES, BitString(data), POLYNOMIAL);
    FeedConcat(ALL_ONES, BitString(data), Complement(r), POLYNOMIAL);
    FeedPadded(r, Complement(r), POLYNOMIAL);
    assert Pad(Complement(r)) == Complement(r) && Xor(r, Complement(r)) == ALL_ONES;
  }

  lemma {:induction false} StepsZero(n: nat, p: Word)
    ensures Steps(Repeat(false, WIDTH), n, p) == Repeat(false, WIDTH)
  {
    if n > 0 {
      assert Step(Repeat(false, WIDTH), p) == Repeat(false, WIDTH);
      StepsZero(n - 1, p);
    }
  }

  // ---------- The register divides

  /** What is left to divide with `w` in the register and `bits` to come: the message times x^32 plus the register over
      its first 32 bits. */
  function Ahead(w: Word, bits: seq<bool>): (d: seq<bool>)
    ensures |d| == |bits| + WIDTH
  {
    P.Plus(bits + P.Zeros(WIDTH), w + P.Zeros(|bits|))
  }

  /** Bit `i`, and nothing beyond the end. */
  predicate BitAt(bits: seq<bool>, i: nat) {
    i < |bits| && bits[i]
  }

  lemma {:induction false} AheadAt(w: Word, bits: seq<bool>, i: nat)
    requires i < |bits| + WIDTH
    ensures Ahead(w, bits)[i] == (BitAt(bits, i) != BitAt(w, i))
  {
  }

  lemma {:induction false} StepAt(w: Word, b: bool, p: Word, i: nat)
    ensures BitAt(Step(Enter(w, b), p), i) == (BitAt(w, i + 1) != ((w[0] != b) && BitAt(p, i)))
  {
  }

  lemma {:induction false} LineAt(p: Word, n: nat, b: bool, line: seq<bool>, i: nat)
    requires line == if b then [true] + p + P.Zeros(n) else P.Zeros(n + 1 + WIDTH)
    requires i < n + 1 + WIDTH
    ensures line[i] == (b && (i == 0 || BitAt(p, i - 1)))
  {
  }

  /** One step of the register is one line of the long division by the polynomial with `p` below its leading term. */
  lemma {:induction false} OneLine(w: Word, bits: seq<bool>, p: Word, b: bool, line: seq<bool>)
    requires bits != [] && b == (w[0] != bits[0])
    requires line == if b then [true] + p + P.Zeros(|bits| - 1) else P.Zeros(|bits| + WIDTH)
    ensures Ahead(w, bits) == P.Plus(line, [false] + Ahead(Step(Enter(w, bits[0]), p), bits[1..]))
  {
    var rest := Ahead(Step(Enter(w, bits[0]), p), bits[1..]);
    forall i | 0 <= i < |bits| + WIDTH ensures Ahead(w, bits)[i] == (line[i] != ([false] + rest)[i]) {
      OneLineAt(w, bits, p, b, line, i);
    }
  }

  lemma {:induction false} OneLineAt(w: Word, bits: seq<bool>, p: Word, b: bool, line: seq<bool>, i: nat)
    requires bits != [] && b == (w[0] != bits[0]) && i < |bits| + WIDTH
    requires line == if b then [true] + p + P.Zeros(|bits| - 1) else P.Zeros(|bits| + WIDTH)
    ensures Ahead(w, bits)[i] == (line[i] != ([false] + Ahead(Step(Enter(w, bits[0]), p), bits[1..]))[i])
  {
    AheadAt(w, bits, i);
    LineAt(p, |bits| - 1, b, line, i);
    if i > 0 {
      StepAt(w, bits[0], p, i - 1);
      AheadAt(Step(Enter(w, bits[0]), p), bits[1..], i - 1);
    }
  }

  lemma {:induction false} LineCarries(line: seq<bool>, d: seq<bool>, n: nat, r: seq<bool>)
    requires |line| == |d| + 1 == n + 1 + |r|
    ensures P.Plus(P.Plus(line, [false] + d), P.Zeros(n + 1) + r) == P.Plus(line, [false] + P.Plus(d, P.Zeros(n) + r))
  {
  }

  /** A quotient gets one more digit with each line. */
  lemma {:induction false} OneMoreDigit(d: seq<bool>, g: seq<bool>, r: Word, b: bool, rest: seq<bool>, d': seq<bool>, line: seq<bool>)
    requires |g| == WIDTH + 1 && |d'| == |rest| + WIDTH && P.Divides(d', g, r, rest)
    requires line == if b then g + P.Zeros(|rest|) else P.Zeros(|rest| + 1 + WIDTH)
    requires d == P.Plus(line, [false] + d')
    ensures P.Divides(d, g, r, [b] + rest)
  {
    assert ([b] + rest)[1..] == rest;
    LineCarries(line, d', |rest|, r);
  }

  lemma {:induction false} NothingAhead(w: Word, p: Word)
    ensures P.Divides(Ahead(w, []), [true] + p, w, [])
  {
  }

  /** Whatever the register holds, feeding a message leaves the remainder of what was ahead. */
  lemma {:induction false} FeedDivides(w: Word, bits: seq<bool>, p: Word) returns (q: seq<bool>)
    ensures |q| == |bits| && P.Divides(Ahead(w, bits), [true] + p, Feed(w, bits, p), q)
    decreases |bits|
  {
    if bits == [] {
      q := [];
      NothingAhead(w, p);
    } else {
      var b, n, g := w[0] != bits[0], |bits| - 1, [true] + p;
      var w' := Step(Enter(w, bits[0]), p);
      var rest := FeedDivides(w', bits[1..], p);
      q := [b] + rest;
      var line := if b then g + P.Zeros(n) else P.Zeros(n + 1 + WIDTH);
      OneLine(w, bits, p, b, line);
      OneMoreDigit(Ahead(w, bits), g, Feed(w', bits[1..], p), b, rest, Ahead(w', bits[1..]), line);
    }
  }

  lemma {:induction false} LowCons(c: nat, n: nat, b: bool, rest: nat)
    requires c == 2 * rest + if b then 1 else 0
    ensures Low(c, n + 1) == [b] + Low(rest, n)
  {
  }

  lemma {:induction false} LowValue(bits: seq<bool>)
    ensures Low(H.Value(bits), |bits|) == bits
  {
    if bits != [] {
      LowValue(bits[1..]);
      LowCons(H.Value(bits), |bits[1..]|, bits[0], H.Value(bits[1..]));
      FirstApart(bits);
    }
  }

  /** The bits of a number by its hexadecimal digits. */
  lemma {:induction false} LowHex(digits: seq<nat>)
    requires H.AreDigits(digits)
    ensures Low(H.Hex(digits), 4 * |digits|) == H.HexBits(digits)
  {
    H.HexIsValue(digits);
    LowValue(H.HexBits(digits));
  }

  lemma {:induction false} LowEight(x: nat, h: nat, g: nat, f: nat, e: nat, d: nat, c: nat, b: nat, a: nat)
    requires h < 16 && g < 16 && f < 16 && e < 16 && d < 16 && c < 16 && b < 16 && a < 16
    requires x == a + 16 * (b + 16 * (c + 16 * (d + 16 * (e + 16 * (f + 16 * (g + 16 * h))))))
    ensures Low(x, WIDTH) == H.HexBits([a, b, c, d, e, f, g, h])
  {
    H.HexEight(h, g, f, e, d, c, b, a);
    LowOf(x, [a, b, c, d, e, f, g, h]);
  }

  lemma {:induction false} LowOf(x: nat, digits: seq<nat>)
    requires H.AreDigits(digits) && |digits| == 8 && x == H.Hex(digits)
    ensures Low(x, WIDTH) == H.HexBits(digits)
  {
    LowHex(digits);
  }

  lemma {:induction false} GeneratorDigits()
    ensures P.GENERATOR ==
              [true] + (H.Digit(0x0) + H.Digit(0x2) + H.Digit(0x3) + H.Digit(0x8) +
                        H.Digit(0x8) + H.Digit(0xB) + H.Digit(0xD) + H.Digit(0xE))
  {
  }

  /** The constant is the generator of the standard below its leading term, highest power in the lowest bit. */
  lemma {:induction false} Generator()
    ensures P.GENERATOR == [true] + POLYNOMIAL
  {
    LowEight(0xEDB8_8320, 0xE, 0xD, 0xB, 0x8, 0x8, 0x3, 0x2, 0x0);
    H.HexBitsEight(0xE, 0xD, 0xB, 0x8, 0x8, 0x3, 0x2, 0x0);
    GeneratorDigits();
  }

  lemma {:induction false} TwiceComplemented(w: Word, r: Word)
    requires w == Complement(r)
    ensures seq(P.FCS_LENGTH, i requires 0 <= i < P.FCS_LENGTH => !w[i]) == r
  {
  }

  /** The checksum is the frame check sequence of section 3.2.9 of IEEE Std 802.3. */
  lemma {:induction false} ChecksumIsFcs(data: seq<byte>)
    ensures P.IsFcs(BitString(data), Checksum(data))
  {
    var m := BitString(data);
    var r := Feed(ALL_ONES, m, POLYNOMIAL);
    var q := FeedDivides(ALL_ONES, m, POLYNOMIAL);
    Generator();
    AheadOfOnes(m);
    TwiceComplemented(Checksum(data), r);
  }

  /** A register of ones complements the first 32 bits of the message times x^32. */
  lemma {:induction false} AheadOfOnes(m: seq<bool>)
    ensures Ahead(ALL_ONES, m) == P.Dividend(m)
  {
  }

  // ---------- Machine words

  lemma {:induction false} LowXor(c: nat, d: nat, n: nat)
    ensures Low(B.Xor(c, d), n) == Xor(Low(c, n), Low(d, n))
    decreases n
  {
    if n > 0 {
      LowXor(c / 2, d / 2, n - 1);
      assert B.Xor(c, d) % 2 == (if c % 2 != d % 2 then 1 else 0) && B.Xor(c, d) / 2 == B.Xor(c / 2, d / 2);
    }
  }

  lemma {:induction false} XorBounded(c: nat, d: nat, n: nat)
    requires c < B.Pow2(n) && d < B.Pow2(n)
    ensures B.Xor(c, d) < B.Pow2(n)
    decreases n
  {
    if n > 0 {
      XorBounded(c / 2, d / 2, n - 1);
    }
  }

  /** A number below 2^n has nothing at bit n. */
  lemma {:induction false} LowExtends(c: nat, n: nat)
    requires c < B.Pow2(n)
    ensures Low(c, n + 1) == Low(c, n) + [false]
    decreases n
  {
    if n > 0 {
      LowExtends(c / 2, n - 1);
    }
  }

  lemma {:induction false} LowComplement(c: nat, n: nat)
    requires c < B.Pow2(n)
    ensures Low(B.Pow2(n) - 1 - c, n) == Xor(Low(c, n), Repeat(true, n))
    decreases n
  {
    if n > 0 {
      LowComplement(c / 2, n - 1);
      var d := B.Pow2(n) - 1 - c;
      assert d / 2 == B.Pow2(n - 1) - 1 - c / 2 && d % 2 != c % 2;
    }
  }

  lemma {:induction false} LowPads(c: nat, n: nat, m: nat)
    requires c < B.Pow2(n) && n <= m
    ensures Low(c, m) == Low(c, n) + Repeat(false, m - n)
    decreases m
  {
    if n < m {
      LowPads(c, n, m - 1);
      if n < m - 1 {
        B.Pow2Grows(n, m - 1);
      }
      LowExtends(c, m - 1);
      RepeatSnoc(m - 1 - n);
    }
  }

  lemma {:induction false} RepeatSnoc(n: nat)
    ensures Repeat(false, n + 1) == Repeat(false, n) + [false]
  {
  }

  lemma {:induction false} MachineShift(c: uint32)
    ensures Low(c / 2, WIDTH) == Shift(Low(c, WIDTH))
  {
    B.Pow2Of32();
    LowExtends(c / 2, 31);
  }

  /** The shift and conditional exclusive-or on a machine word is one division step. */
  lemma {:induction false} MachineStep(c: uint32, p: uint32)
    ensures Low(if c % 2 == 1 then B.Xor(c / 2, p) else c / 2, WIDTH) == Step(Low(c, WIDTH), Low(p, WIDTH))
  {
    MachineShift(c);
    LowXor(c / 2, p, WIDTH);
  }

  lemma {:induction false} XorFits(c: uint32, d: uint32)
    ensures B.Xor(c, d) < B.TWO_32
  {
    B.Pow2Of32();
    XorBounded(c, d, 32);
  }

  /** Exclusive-or with a byte enters its eight bits at the low end. */
  lemma {:induction false} MachineEnter(c: uint32, b: byte)
    ensures Low(B.Xor(c, b as nat), WIDTH) == Xor(Low(c, WIDTH), Pad(Low(b as nat, 8)))
  {
    LowXor(c, b as nat, WIDTH);
    BytePads(b);
  }

  lemma {:induction false} BytePads(b: byte)
    ensures Low(b as nat, WIDTH) == Pad(Low(b as nat, 8))
  {
    assert B.Pow2(8) == 256;
    LowPads(b as nat, 8, WIDTH);
  }

  lemma {:induction false} StepsSnoc(w: Word, n: nat, p: Word)
    ensures Steps(w, n + 1, p) == Step(Steps(w, n, p), p)
    decreases n
  {
    if n > 0 {
      StepsSnoc(Step(w, p), n - 1, p);
    }
  }

  lemma {:induction false} BitStringConcat(a: seq<byte>, b: seq<byte>)
    ensures BitString(a + b) == BitString(a) + BitString(b)
  {
    if a == [] {
      assert a + b == b;
    } else {
      assert (a + b)[1..] == a[1..] + b && (a + b)[0] == a[0];
      BitStringConcat(a[1..], b);
      Associative(Low(a[0] as nat, 8), BitString(a[1..]), BitString(b));
    }
  }

  lemma {:induction false} BitStringOne(b: byte)
    ensures BitString([b]) == Low(b as nat, 8)
  {
  }

  /** One more byte takes the register on by its eight bits. */
  lemma {:induction false} FeedByte(w: Word, data: seq<byte>, i: nat, p: Word)
    requires i < |data|
    ensures Feed(w, BitString(data[..i + 1]), p) == Feed(Feed(w, BitString(data[..i]), p), Low(data[i] as nat, 8), p)
  {
    TakeOneMore(data, i);
    BitStringConcat(data[..i], [data[i]]);
    BitStringOne(data[i]);
    FeedConcat(w, BitString(data[..i]), Low(data[i] as nat, 8), p);
  }

  /** The inner loop: eight steps after entering a byte. */
  method EnterByte(start: uint32, b: byte) returns (crc: uint32)
    ensures Low(crc, WIDTH) == Feed(Low(start, WIDTH), Low(b as nat, 8), POLYNOMIAL)
  {
    XorFits(start, b as nat);
    crc := B.Xor(start, b as nat);
    ghost var w := Low(crc, WIDTH);
    for j := 0 to 8
      invariant Low(crc, WIDTH) == Steps(w, j, POLYNOMIAL)
    {
      StepsSnoc(w, j, POLYNOMIAL);
      MachineStep(crc, 0xEDB8_8320);
      XorFits(crc / 2, 0xEDB8_8320);
      crc := if crc % 2 == 1 then B.Xor(crc / 2, 0xEDB8_8320) else crc / 2;
    }
    MachineEnter(start, b);
    FeedPadded(Low(start, WIDTH), Low(b as nat, 8), POLYNOMIAL);
  }

  lemma {:induction false} LowOnes(n: nat)
    ensures Low(B.Pow2(n) - 1, n) == Repeat(true, n)
  {
    if n > 0 {
      LowOnes(n - 1);
      assert (B.Pow2(n) - 1) / 2 == B.Pow2(n - 1) - 1;
    }
  }

  lemma {:induction false} AllOnes(c: nat, n: nat)
    requires c == B.Pow2(n) - 1
    ensures Low(c, n) == Repeat(true, n)
  {
    LowOnes(n);
  }

  lemma {:induction false} AllFlipped(c: nat, d: nat, n: nat)
    requires c + d == B.Pow2(n) - 1
    ensures Low(d, n) == Xor(Low(c, n), Repeat(true, n))
  {
    LowComplement(c, n);
  }

  lemma {:induction false} MachineOnes(c: uint32)
    requires c == B.TWO_32 - 1
    ensures Low(c, WIDTH) == ALL_ONES
  {
    B.Pow2Of32();
    AllOnes(c, WIDTH);
  }

  lemma {:induction false} MachineComplement(c: uint32, d: uint32)
    requires c + d == B.TWO_32 - 1
    ensures Low(d, WIDTH) == Complement(Low(c, WIDTH))
  {
    B.Pow2Of32();
    AllFlipped(c, d, WIDTH);
  }

  /** The outer loop: the bytes one after the other. */
  method EnterBytes(start: uint32, data: seq<byte>) returns (crc: uint32)
    ensures Low(crc, WIDTH) == Feed(Low(start, WIDTH), BitString(data), POLYNOMIAL)
  {
    crc := start;
    ghost var w := Low(start, WIDTH);
    for i := 0 to |data|
      invariant Low(crc, WIDTH) == Feed(w, BitString(data[..i]), POLYNOMIAL)
    {
      FeedByte(w, data, i, POLYNOMIAL);
      crc := EnterByte(crc, data[i]);
    }
    assert data[..|data|] == data;
  }

  method CalculateChecksum(data: seq<byte>) returns (checksum: uint32)
    ensures Low(checksum, WIDTH) == Checksum(data)
    ensures P.IsFcs(BitString(data), Low(checksum, WIDTH))
  {
    ChecksumIsFcs(data);
    var ones: uint32 := 0xFFFF_FFFF;
    MachineOnes(ones);
    var crc := EnterBytes(ones, data);
    checksum := ones - crc;
    MachineComplement(crc, checksum);
  }

  // ---------- Message headers

  const HEADER_SIZE := 28
  const MAX_CHECKED_SIZE := 8192

  class MessageHeader {
    var length: uint32
    var checksum: uint32
  }

  datatype Payload = Null | Bytes(data: seq<byte>)

  predicate Checkable(length: nat, payload: Payload) {
    HEADER_SIZE <= length <= MAX_CHECKED_SIZE && payload.Bytes?
  }

  /** The payload has as many bytes as the header announces. */
  predicate Covers(payload: Payload, length: nat) {
    Checkable(length, payload) ==> |payload.data| >= length - HEADER_SIZE
  }

  predicate Accepts(length: nat, checksum: uint32, payload: Payload)
    requires Covers(payload, length)
  {
    Checkable(length, payload) && Low(checksum, WIDTH) == Checksum(payload.data[..length - HEADER_SIZE])
  }

  /** What validation accepts: a length from 28 to 8192, a payload, and in the checksum field the one frame check sequence of
      the payload. */
  lemma {:induction false} AcceptsExactly(length: nat, checksum: uint32, payload: Payload)
    requires Covers(payload, length)
    ensures Accepts(length, checksum, payload) <==>
              28 <= length <= 8192 && payload.Bytes? && P.IsFcs(BitString(payload.data[..length - 28]), Low(checksum, WIDTH))
  {
    if Checkable(length, payload) {
      var data := payload.data[..length - HEADER_SIZE];
      ChecksumIsFcs(data);
      if P.IsFcs(BitString(data), Low(checksum, WIDTH)) {
        P.FcsUnique(BitString(data), Low(checksum, WIDTH), Checksum(data));
      }
    }
  }

  method ValidateChecksum(header: MessageHeader, payload: Payload) returns (ok: bool)
    requires Covers(payload, header.length)
    ensures ok == Accepts(header.length, header.checksum, payload)
  {
    if header.length < HEADER_SIZE || header.length > MAX_CHECKED_SIZE {
      return false;
    }
    if payload.Null? {
      return false;
    }
    var calculated := CalculateChecksum(payload.data[..header.length - HEADER_SIZE]);
    B.Pow2Of32();
    if calculated != header.checksum && Low(calculated, WIDTH) == Low(header.checksum, WIDTH) {
      LowInjective(calculated, header.checksum, 32);
    }
    return calculated == header.checksum;
  }

  /** Validation succeeds after setting, for every payload and every length in range; otherwise the field is 0. */
  method SetChecksum(header: MessageHeader, payload: Payload)
    requires Covers(payload, header.length)
    modifies header`checksum
    ensures Accepts(header.length, header.checksum, payload) <==> Checkable(header.length, payload)
    ensures !Checkable(header.length, payload) ==> header.checksum == 0
  {
    if header.length < HEADER_SIZE || header.length > MAX_CHECKED_SIZE || payload.Null? {
      header.checksum := 0;
      return;
    }
    header.checksum := CalculateChecksum(payload.data[..header.length - HEADER_SIZE]);
  }

  /** A payload that was accepted is rejected after any burst error of up to 32 bits. */
  lemma {:induction false} CorruptionRejected(length: nat, checksum: uint32, data: seq<byte>, bad: seq<byte>, i: nat)
    requires Covers(Bytes(data), length) && Accepts(length, checksum, Bytes(data)) && |bad| == |data|
    requires var n := length - HEADER_SIZE; data[..n] != bad[..n] && DifferWithin(data[..n], bad[..n], i)
    ensures !Accepts(length, checksum, Bytes(bad))
  {
    BurstDetected(data[..length - HEADER_SIZE], bad[..length - HEADER_SIZE], i);
  }
}
