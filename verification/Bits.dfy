/** Powers of two, bit operations on numbers, and the rounding of queue capacities. */
module Bits {
  const TWO_32 := 0x1_0000_0000
  const TWO_63 := 0x8000_0000_0000_0000
  const TWO_64 := 0x1_0000_0000_0000_0000

  newtype byte = x: int | 0 <= x < 256
  type uint32 = x: int | 0 <= x < TWO_32

  function Pow2(k: nat): (r: nat)
    ensures r >= 1
  {
    if k == 0 then 1 else 2 * Pow2(k - 1)
  }

  function And(a: nat, b: nat): nat {
    if a == 0 || b == 0 then 0
    else 2 * And(a / 2, b / 2) + if a % 2 == 1 && b % 2 == 1 then 1 else 0
  }

  function Or(a: nat, b: nat): nat {
    if a == 0 then b
    else if b == 0 then a
    else 2 * Or(a / 2, b / 2) + if a % 2 == 1 || b % 2 == 1 then 1 else 0
  }

  function Xor(a: nat, b: nat): nat {
    if a == 0 then b
    else if b == 0 then a
    else 2 * Xor(a / 2, b / 2) + if a % 2 != b % 2 then 1 else 0
  }

  function Shr(v: nat, w: nat): nat {
    if w == 0 then v else Shr(v / 2, w - 1)
  }

  function Shl(h: nat, w: nat): nat {
    if w == 0 then h else 2 * Shl(h, w - 1)
  }

  lemma {:induction false} Pow2Grows(a: nat, b: nat)
    requires a < b
    ensures 2 * Pow2(a) <= Pow2(b)
  {
    if a + 1 < b {
      Pow2Grows(a, b - 1);
    }
  }

  // ---------- Masks

  /** The place of a position in a ring of `cap` cells. */
  function Wrap(pos: nat, cap: nat): (c: nat)
    requires cap > 0
    ensures c < cap
  {
    if pos < cap then pos else Wrap(pos - cap, cap)
  }

  lemma {:induction false} WrapIsRemainder(pos: nat)
    ensures Wrap(pos, TWO_64) == pos % TWO_64
  {
    if pos >= TWO_64 {
      WrapIsRemainder(pos - TWO_64);
    }
  }

  lemma {:induction false} WrapHalves(pos: nat, m: nat)
    requires m > 0
    ensures Wrap(pos, 2 * m) == 2 * Wrap(pos / 2, m) + pos % 2
  {
    if pos >= 2 * m {
      WrapHalves(pos - 2 * m, m);
      assert (pos - 2 * m) / 2 == pos / 2 - m;
    }
  }

  /** Masking with 2^k - 1 picks the place in a ring of 2^k cells. */
  lemma {:induction false} MaskWraps(pos: nat, k: nat)
    ensures And(pos, Pow2(k) - 1) == Wrap(pos, Pow2(k))
  {
    if k > 0 {
      MaskWraps(pos / 2, k - 1);
      WrapHalves(pos, Pow2(k - 1));
      assert (Pow2(k) - 1) / 2 == Pow2(k - 1) - 1 && (Pow2(k) - 1) % 2 == 1;
    } else {
      WrapOne(pos);
    }
  }

  lemma {:induction false} WrapOne(pos: nat)
    ensures Wrap(pos, 1) == 0
  {
  }

  lemma {:induction false} WrapAddsLap(pos: nat, k: nat, j: nat)
    requires k <= j
    ensures Wrap(pos + Pow2(j), Pow2(k)) == Wrap(pos, Pow2(k))
    decreases j
  {
    if k < j {
      WrapAddsLap(pos, k, j - 1);
      WrapAddsLap(pos + Pow2(j - 1), k, j - 1);
    }
  }

  /** A counter that wraps at a larger power of two keeps its place in the ring. */
  lemma {:induction false} WrapTwice(pos: nat, k: nat, j: nat)
    requires k <= j
    ensures Wrap(Wrap(pos, Pow2(j)), Pow2(k)) == Wrap(pos, Pow2(k))
  {
    if pos >= Pow2(j) {
      WrapTwice(pos - Pow2(j), k, j);
      WrapAddsLap(pos - Pow2(j), k, j);
    }
  }

  /** Positions less than a lap apart have different places. */
  lemma {:induction false} WrapApart(p: nat, q: nat, cap: nat)
    requires cap > 0 && p < q && Wrap(p, cap) == Wrap(q, cap)
    ensures p + cap <= q
  {
    if p >= cap {
      WrapApart(p - cap, q - cap, cap);
    }
  }

  // ---------- Rounding up

  /** `v |= v >> w`. */
  function Smear(v: nat, w: nat): nat {
    Or(v, Shr(v, w))
  }

  function SmearAll(v: nat): nat {
    Smear(Smear(Smear(Smear(Smear(Smear(v, 1), 2), 4), 8), 16), 32)
  }

  function RoundUpPow2(v: nat): nat
    requires v < TWO_64
  {
    if v == 0 then 1 else (SmearAll(v - 1) + 1) % TWO_64
  }

  ghost predicate IsLeastPow2(r: nat, v: nat) {
    && (exists k :: r == Pow2(k))
    && v <= r
    && (forall j :: v <= Pow2(j) ==> r <= Pow2(j))
  }

  lemma {:induction false} OrBounds(a: nat, b: nat, n: nat)
    requires a < Pow2(n) && b < Pow2(n)
    ensures a <= Or(a, b) < Pow2(n) && b <= Or(a, b)
  {
    if a != 0 && b != 0 {
      OrBounds(a / 2, b / 2, n - 1);
    }
  }

  /** Bits above the n-th are left alone. */
  lemma {:induction false} OrHigh(h: nat, n: nat, r: nat, x: nat)
    requires r < Pow2(n) && x < Pow2(n)
    ensures Or(Shl(h, n) + r, x) == Shl(h, n) + Or(r, x)
  {
    if n > 0 {
      OrHigh(h, n - 1, r / 2, x / 2);
      assert (Shl(h, n) + r) / 2 == Shl(h, n - 1) + r / 2;
    }
  }

  lemma {:induction false} ShrAtLeast(v: nat, w: nat, q: nat)
    ensures q <= Shr(v, w) <==> Shl(q, w) <= v
  {
    if w > 0 {
      ShrAtLeast(v / 2, w - 1, q);
    }
  }

  lemma {:induction false} ShlAdds(a: nat, b: nat, w: nat)
    ensures Shl(a + b, w) == Shl(a, w) + Shl(b, w)
  {
    if w > 0 {
      ShlAdds(a, b, w - 1);
    }
  }

  lemma {:induction false} ShlPow2(n: nat, w: nat)
    ensures Shl(Pow2(n), w) == Pow2(n + w)
  {
    if w > 0 {
      ShlPow2(n, w - 1);
    }
  }

  /** What may be missing below 2^len once the top `w` bits are set. */
  function Slack(len: nat, w: nat): nat {
    if w < len then Pow2(len - w) else 1
  }

  /** `v` has `len` bits and its top `w` bits are set. */
  ghost predicate TopSet(v: nat, len: nat, w: nat) {
    v < Pow2(len) <= v + Slack(len, w)
  }

  lemma {:induction false} ShiftedTop(v: nat, len: nat, w: nat)
    requires TopSet(v, len, w) && 0 < w < len
    ensures Shr(v, w) < Pow2(len - w) <= Shr(v, w) + Slack(len - w, w)
  {
    var n := len - w;
    ShlPow2(n, w);
    ShrAtLeast(v, w, Pow2(n));
    if w < n {
      Pow2Grows(n - w, n);
      ShlPow2(n - w, w);
    } else {
      ShlPow2(0, w);
      if n < w {
        Pow2Grows(n, w);
      }
    }
    var q := Pow2(n) - Slack(n, w);
    ShlAdds(q, Slack(n, w), w);
    ShrAtLeast(v, w, q);
  }

  lemma {:induction false} HighBits(w: nat, n: nat)
    ensures Shl(Pow2(w) - 1, n) + Pow2(n) == Pow2(w + n)
  {
    ShlPow2(w, n);
    ShlPow2(0, n);
    ShlAdds(Pow2(w) - 1, 1, n);
  }

  /** The top bits stay, and the shifted ones continue them. */
  lemma {:induction false} SmearContinues(v: nat, len: nat, w: nat, x: nat)
    requires TopSet(v, len, w) && 0 < w < len && x < Pow2(len - w) <= x + Slack(len, 2 * w)
    ensures TopSet(Or(v, x), len, 2 * w)
  {
    var n := len - w;
    HighBits(w, n);
    var r := v - Shl(Pow2(w) - 1, n);
    OrHigh(Pow2(w) - 1, n, r, x);
    OrBounds(r, x, n);
  }

  /** Each smear doubles the number of top bits set. */
  lemma {:induction false} SmearDoubles(v: nat, len: nat, w: nat)
    requires TopSet(v, len, w) && w > 0
    ensures TopSet(Smear(v, w), len, 2 * w)
  {
    var x := Shr(v, w);
    if w < len {
      ShiftedTop(v, len, w);
      SlackDoubles(len, w);
      SmearContinues(v, len, w, x);
    } else {
      ShrSmaller(v, w);
      OrBounds(v, x, len);
    }
  }

  lemma {:induction false} SlackDoubles(len: nat, w: nat)
    requires w < len
    ensures Slack(len - w, w) == Slack(len, 2 * w)
  {
  }

  lemma {:induction false} ShrSmaller(v: nat, w: nat)
    ensures Shr(v, w) <= v
  {
    if w > 0 {
      ShrSmaller(v / 2, w - 1);
    }
  }

  lemma {:induction false} Length(v: nat) returns (len: nat)
    requires v > 0
    ensures len > 0 && Pow2(len - 1) <= v < Pow2(len)
  {
    if v == 1 {
      len := 1;
    } else {
      len := Length(v / 2);
      len := len + 1;
    }
  }

  /** Six smears fill every bit below the top one. */
  lemma {:induction false} SmearsFill(v: nat, len: nat)
    requires 0 < len <= 64 && Pow2(len - 1) <= v < Pow2(len)
    ensures SmearAll(v) == Pow2(len) - 1
  {
    SmearDoubles(v, len, 1);
    var v1 := Smear(v, 1);
    SmearDoubles(v1, len, 2);
    var v2 := Smear(v1, 2);
    SmearDoubles(v2, len, 4);
    var v4 := Smear(v2, 4);
    SmearDoubles(v4, len, 8);
    var v8 := Smear(v4, 8);
    SmearDoubles(v8, len, 16);
    var v16 := Smear(v8, 16);
    SmearDoubles(v16, len, 32);
  }

  lemma {:induction false} Pow2Adds(a: nat, b: nat)
    ensures Pow2(a + b) == Pow2(a) * Pow2(b)
  {
    if b > 0 {
      Pow2Adds(a, b - 1);
      assert Pow2(a) * (2 * Pow2(b - 1)) == 2 * (Pow2(a) * Pow2(b - 1));
    }
  }

  lemma {:induction false} Pow2Of32()
    ensures Pow2(31) == TWO_32 / 2 && Pow2(32) == TWO_32
  {
    assert Pow2(1) == 2;
    Pow2Adds(1, 1);
    Pow2Adds(2, 2);
    Pow2Adds(4, 4);
    Pow2Adds(8, 8);
    Pow2Adds(16, 16);
    assert Pow2(32) == 2 * Pow2(31);
  }

  lemma {:induction false} Pow2Of64()
    ensures Pow2(63) == TWO_63 && Pow2(64) == TWO_64
  {
    Pow2Of32();
    Pow2Adds(32, 32);
    assert Pow2(64) == 2 * Pow2(63);
  }

  lemma {:induction false} SmearZero(w: nat)
    ensures Smear(0, w) == 0
  {
    ShrSmaller(0, w);
  }

  /** Where the top bit of `v - 1` is decides the result. */
  lemma {:induction false} RoundsUpTo(v: nat) returns (len: nat)
    requires 1 < v < TWO_64
    ensures 0 < len <= 64 && Pow2(len - 1) < v <= Pow2(len)
    ensures RoundUpPow2(v) == Pow2(len) % TWO_64
  {
    len := Length(v - 1);
    LengthBound(v - 1, len);
    RoundsUpBits(v, len);
  }

  lemma {:induction false} RoundsUpBits(v: nat, len: nat)
    requires 1 < v < TWO_64 && 0 < len <= 64 && Pow2(len - 1) <= v - 1 < Pow2(len)
    ensures RoundUpPow2(v) == Pow2(len) % TWO_64
  {
    var u := v - 1;
    SmearsFill(u, len);
    Successor(v, u, Pow2(len));
  }

  lemma {:induction false} Successor(v: nat, u: nat, p: nat)
    requires 0 < v < TWO_64 && u == v - 1 && SmearAll(u) + 1 == p
    ensures RoundUpPow2(v) == p % TWO_64
  {
  }

  lemma {:induction false} LengthBound(v: nat, len: nat)
    requires 0 < len && Pow2(len - 1) <= v < TWO_64
    ensures len <= 64
  {
    Pow2Of64();
    if len > 65 {
      Pow2Grows(64, len - 1);
    }
  }

  lemma {:induction false} TopPower(len: nat)
    requires len <= 64
    ensures len < 64 ==> Pow2(len) <= TWO_63 && Pow2(len) % TWO_64 == Pow2(len)
    ensures len == 64 ==> Pow2(len) % TWO_64 == 0 && Pow2(len - 1) == TWO_63
  {
    Pow2Of64();
    if len < 63 {
      Pow2Grows(len, 63);
    }
  }

  /** Capacities round up to the least power of two exactly up to 2^63; above that the result wraps to 0. */
  lemma {:induction false} RoundsUp(v: nat)
    requires v < TWO_64
    ensures IsLeastPow2(RoundUpPow2(v), v) <==> v <= TWO_63
    ensures v > TWO_63 ==> RoundUpPow2(v) == 0
  {
    if v <= 1 {
      RoundsUpOne(v);
    } else {
      RoundsUpMany(v);
    }
  }

  lemma {:induction false} RoundsUpMany(v: nat)
    requires 1 < v < TWO_64
    ensures if v <= TWO_63 then IsLeastPow2(RoundUpPow2(v), v) else RoundUpPow2(v) == 0
  {
    var len := RoundsUpTo(v);
    TopPower(len);
    LeastPow2(v, len);
  }

  lemma {:induction false} RoundsUpOne(v: nat)
    requires v <= 1
    ensures RoundUpPow2(v) == 1 && IsLeastPow2(1, v)
  {
    SmearZero(1);
    SmearZero(2);
    SmearZero(4);
    SmearZero(8);
    SmearZero(16);
    SmearZero(32);
    assert Pow2(0) == 1;
  }

  lemma {:induction false} LeastPow2(v: nat, len: nat)
    requires len > 0 && Pow2(len - 1) < v <= Pow2(len)
    ensures IsLeastPow2(Pow2(len), v)
  {
    forall j: nat | v <= Pow2(j) ensures Pow2(len) <= Pow2(j) {
      if j < len - 1 {
        Pow2Grows(j, len - 1);
      } else if j > len {
        Pow2Grows(len, j);
      }
    }
  }
}
