/** The frame check sequence as section 3.2.9 of IEEE Std 802.3 defines it: by division of polynomials over bits. Highest
    power first; nothing here knows of registers. */
module Polynomials {
  /** `n` zero coefficients. */
  function Zeros(n: nat): (z: seq<bool>)
    ensures |z| == n && forall i :: 0 <= i < n ==> !z[i]
  {
    seq(n, i => false)
  }

  /** Sum, which is also difference, of two polynomials of equal length. */
  function Plus(a: seq<bool>, b: seq<bool>): (c: seq<bool>)
    requires |a| == |b|
    ensures |c| == |a| && forall i :: 0 <= i < |a| ==> c[i] == (a[i] != b[i])
  {
    seq(|a|, i requires 0 <= i < |a| => a[i] != b[i])
  }

  /** The product, written out as in long multiplication. */
  function Product(q: seq<bool>, g: seq<bool>): (p: seq<bool>)
    requires g != []
    ensures |p| == |q| + |g| - 1
  {
    if q == [] then Zeros(|g| - 1)
    else Plus(if q[0] then g + Zeros(|q| - 1) else Zeros(|q| + |g| - 1), [false] + Product(q[1..], g))
  }

  /** `r`, one shorter than `g`, is what division of `d` by `g` leaves. */
  ghost predicate IsRemainder(d: seq<bool>, g: seq<bool>, r: seq<bool>) {
    && |g| == |r| + 1 && |d| >= |r|
    && exists q :: |q| == |d| - |r| && Divides(d, g, r, q)
  }

  predicate Divides(d: seq<bool>, g: seq<bool>, r: seq<bool>, q: seq<bool>)
    requires |g| == |r| + 1 && |d| == |q| + |r|
  {
    Product(q, g) == Plus(d, Zeros(|q|) + r)
  }

  // ---------- Remainders are unique

  lemma {:induction false} ProductPlus(a: seq<bool>, b: seq<bool>, g: seq<bool>)
    requires |a| == |b| && g != []
    ensures Product(Plus(a, b), g) == Plus(Product(a, g), Product(b, g))
    decreases |a|
  {
    if a != [] {
      assert Plus(a, b)[1..] == Plus(a[1..], b[1..]);
      ProductPlus(a[1..], b[1..], g);
    }
  }

  /** A product with a polynomial of full degree vanishes in its high part only for the zero factor. */
  lemma {:induction false} ProductHigh(q: seq<bool>, g: seq<bool>)
    requires g != [] && g[0] && forall i :: 0 <= i < |q| ==> !Product(q, g)[i]
    ensures q == Zeros(|q|)
    decreases |q|
  {
    if q != [] {
      assert Product(q, g)[0] == q[0];
      forall i | 0 <= i < |q[1..]| ensures !Product(q[1..], g)[i] {
        assert !Product(q, g)[i + 1];
        assert ([false] + Product(q[1..], g))[i + 1] == Product(q[1..], g)[i];
      }
      ProductHigh(q[1..], g);
      assert q == [q[0]] + q[1..];
    }
  }

  lemma {:induction false} ProductZero(n: nat, g: seq<bool>)
    requires g != []
    ensures Product(Zeros(n), g) == Zeros(n + |g| - 1)
  {
    if n > 0 {
      assert Zeros(n)[1..] == Zeros(n - 1);
      ProductZero(n - 1, g);
    }
  }

  lemma {:induction false} TailsDiffer(d: seq<bool>, n: nat, r: seq<bool>, s: seq<bool>)
    requires |r| == |s| && |d| == n + |r|
    ensures Plus(Plus(d, Zeros(n) + r), Plus(d, Zeros(n) + s)) == Zeros(n) + Plus(r, s)
  {
  }

  /** Division by a polynomial of full degree leaves one remainder. */
  lemma {:induction false} RemainderUnique(d: seq<bool>, g: seq<bool>, r: seq<bool>, s: seq<bool>)
    requires g != [] && g[0] && |r| == |s| && IsRemainder(d, g, r) && IsRemainder(d, g, s)
    ensures r == s
  {
    var n := |d| - |r|;
    var a :| |a| == n && Divides(d, g, r, a);
    var b :| |b| == n && Divides(d, g, s, b);
    ProductPlus(a, b, g);
    TailsDiffer(d, n, r, s);
    SmallMultiple(Plus(a, b), g, Plus(r, s));
    forall i | 0 <= i < |r| ensures r[i] == s[i] {
      assert !Plus(r, s)[i];
    }
  }

  /** The only multiple of lower degree is zero. */
  lemma {:induction false} SmallMultiple(q: seq<bool>, g: seq<bool>, low: seq<bool>)
    requires g != [] && g[0] && |g| == |low| + 1 && Product(q, g) == Zeros(|q|) + low
    ensures low == Zeros(|low|)
  {
    ProductHigh(q, g);
    ProductZero(|q|, g);
    assert low == Product(q, g)[|q|..];
  }

  // ---------- The frame check sequence

  const FCS_LENGTH := 32

  /** The generating polynomial: powers 32, 26, 23, 22, 16, 12, 11, 10, 8, 7, 5, 4, 2, 1 and 0. */
  const POWERS: set<nat> := {32, 26, 23, 22, 16, 12, 11, 10, 8, 7, 5, 4, 2, 1, 0}

  const GENERATOR: seq<bool> := seq(FCS_LENGTH + 1, i => FCS_LENGTH - i in POWERS)

  /** The message times x^32, with the first 32 bits complemented. */
  function Dividend(message: seq<bool>): (d: seq<bool>)
    ensures |d| == |message| + FCS_LENGTH
  {
    seq(|message| + FCS_LENGTH, i requires 0 <= i < |message| + FCS_LENGTH =>
      var bit := i < |message| && message[i];
      if i < FCS_LENGTH then !bit else bit)
  }

  /** The check sequence of a message: the remainder of its dividend, complemented. */
  ghost predicate IsFcs(message: seq<bool>, fcs: seq<bool>) {
    |fcs| == FCS_LENGTH && IsRemainder(Dividend(message), GENERATOR, seq(FCS_LENGTH, i requires 0 <= i < FCS_LENGTH => !fcs[i]))
  }

  /** A message has one check sequence. */
  lemma {:induction false} FcsUnique(message: seq<bool>, a: seq<bool>, b: seq<bool>)
    requires IsFcs(message, a) && IsFcs(message, b)
    ensures a == b
  {
    var r := seq(FCS_LENGTH, i requires 0 <= i < FCS_LENGTH => !a[i]);
    var s := seq(FCS_LENGTH, i requires 0 <= i < FCS_LENGTH => !b[i]);
    RemainderUnique(Dividend(message), GENERATOR, r, s);
    forall i | 0 <= i < FCS_LENGTH ensures a[i] == b[i] {
      assert r[i] == !a[i] && s[i] == !b[i];
    }
  }
}
