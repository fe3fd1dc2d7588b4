/** Numbers and bit strings by their hexadecimal digits, lowest first. */
module Hexadecimal {
  /** The number a bit string stands for, lowest bit first. */
  function Value(bits: seq<bool>): nat {
    if bits == [] then 0 else (if bits[0] then 1 else 0) + 2 * Value(bits[1..])
  }

  function Digit(d: nat): (bits: seq<bool>)
    ensures |bits| == 4
  {
    [d % 2 == 1, d / 2 % 2 == 1, d / 4 % 2 == 1, d / 8 % 2 == 1]
  }

  ghost predicate AreDigits(digits: seq<nat>) {
    forall i :: 0 <= i < |digits| ==> digits[i] < 16
  }

  function Hex(digits: seq<nat>): nat {
    if digits == [] then 0 else digits[0] + 16 * Hex(digits[1..])
  }

  function HexBits(digits: seq<nat>): (bits: seq<bool>)
    ensures |bits| == 4 * |digits|
  {
    if digits == [] then [] else Digit(digits[0]) + HexBits(digits[1..])
  }

  lemma {:induction false} ValueCons(b: bool, bits: seq<bool>)
    ensures Value([b] + bits) == (if b then 1 else 0) + 2 * Value(bits)
  {
  }

  function Unit(b: bool): nat {
    if b then 1 else 0
  }

  lemma {:induction false} ValueFour(a: bool, b: bool, c: bool, d: bool, bits: seq<bool>)
    ensures Value([a, b, c, d] + bits) == Unit(a) + 2 * Unit(b) + 4 * Unit(c) + 8 * Unit(d) + 16 * Value(bits)
  {
    assert [a, b, c, d] + bits == [a] + ([b] + ([c] + ([d] + bits)));
    ValueCons(a, [b] + ([c] + ([d] + bits)));
    ValueCons(b, [c] + ([d] + bits));
    ValueCons(c, [d] + bits);
    ValueCons(d, bits);
  }

  lemma {:induction false} DigitValue(d: nat)
    requires d < 16
    ensures Unit(Digit(d)[0]) + 2 * Unit(Digit(d)[1]) + 4 * Unit(Digit(d)[2]) + 8 * Unit(Digit(d)[3]) == d
  {
  }

  lemma {:induction false} HexIsValue(digits: seq<nat>)
    requires AreDigits(digits)
    ensures Value(HexBits(digits)) == Hex(digits)
  {
    if digits != [] {
      HexIsValue(digits[1..]);
      var x := Digit(digits[0]);
      DigitValue(digits[0]);
      ValueFour(x[0], x[1], x[2], x[3], HexBits(digits[1..]));
      assert x == [x[0], x[1], x[2], x[3]];
    }
  }

  lemma {:induction false} HexCons(d: nat, digits: seq<nat>)
    ensures Hex([d] + digits) == d + 16 * Hex(digits)
  {
  }

  /** The number with eight digits, written highest first. */
  lemma {:induction false} HexEight(h: nat, g: nat, f: nat, e: nat, d: nat, c: nat, b: nat, a: nat)
    ensures Hex([a, b, c, d, e, f, g, h]) == a + 16 * (b + 16 * (c + 16 * (d + 16 * (e + 16 * (f + 16 * (g + 16 * h))))))
  {
    var x7 := [h];
    var x6 := [g] + x7;
    var x5 := [f] + x6;
    var x4 := [e] + x5;
    var x3 := [d] + x4;
    var x2 := [c] + x3;
    var x1 := [b] + x2;
    HexCons(g, x7);
    HexCons(f, x6);
    HexCons(e, x5);
    HexCons(d, x4);
    HexCons(c, x3);
    HexCons(b, x2);
    HexCons(a, x1);
    assert x7 == [h] + [] && Hex([]) == 0;
    HexCons(h, []);
    assert [a, b, c, d, e, f, g, h] == [a] + x1;
  }

  lemma {:induction false} HexBitsCons(d: nat, digits: seq<nat>)
    ensures HexBits([d] + digits) == Digit(d) + HexBits(digits)
  {
    assert ([d] + digits)[1..] == digits;
  }

  lemma {:induction false} HexBitsTwo(b: nat, a: nat, digits: seq<nat>)
    ensures HexBits([a, b] + digits) == Digit(a) + Digit(b) + HexBits(digits)
  {
    HexBitsCons(b, digits);
    HexBitsCons(a, [b] + digits);
    assert [a, b] + digits == [a] + ([b] + digits);
  }

  lemma {:induction false} HexBitsFour(d: nat, c: nat, b: nat, a: nat, digits: seq<nat>)
    ensures HexBits([a, b, c, d] + digits) == Digit(a) + Digit(b) + Digit(c) + Digit(d) + HexBits(digits)
  {
    HexBitsTwo(d, c, digits);
    HexBitsTwo(b, a, [c, d] + digits);
    assert [a, b, c, d] + digits == [a, b] + ([c, d] + digits);
  }

  lemma {:induction false} HexBitsEight(h: nat, g: nat, f: nat, e: nat, d: nat, c: nat, b: nat, a: nat)
    ensures HexBits([a, b, c, d, e, f, g, h]) ==
              Digit(a) + Digit(b) + Digit(c) + Digit(d) + Digit(e) + Digit(f) + Digit(g) + Digit(h)
  {
    HexBitsFour(d, c, b, a, [e, f, g, h]);
    HexBitsFour(h, g, f, e, []);
    assert [a, b, c, d] + [e, f, g, h] == [a, b, c, d, e, f, g, h] && [e, f, g, h] + [] == [e, f, g, h];
  }
}
