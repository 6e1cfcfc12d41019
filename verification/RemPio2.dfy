/** The exact part of Payne-Hanek argument reduction, src/lisp/k_rem_pio2.c: from the 24-bit digits of an
    argument and of 2/pi to the quadrant and the digits of the remaining fraction.  Doubles that hold
    integers are integers here, their bound 2^53 being part of what is proved; the others are reals. */
module RemPio2 {
  import opened PowersOfTwo

  const EXACT: int := 0x20_0000_0000_0000

  // ---------- Powers and positional values ----------

  function Pow2(k: int): (p: real)
    ensures p > 0.0
    decreases if k < 0 then -k else k
  {
    if k == 0 then 1.0 else if k > 0 then 2.0 * Pow2(k - 1) else Pow2(k + 1) / 2.0
  }

  function PowB(i: nat): (p: nat)
    ensures p >= 1
  {
    if i == 0 then 1 else 0x100_0000 * PowB(i - 1)
  }

  predicate IsDigit(d: int) {
    0 <= d < 0x100_0000
  }

  predicate Digits(s: seq<int>) {
    forall i :: 0 <= i < |s| ==> IsDigit(s[i])
  }

  /** The first n entries of s as a number, least significant first. */
  function Val(s: seq<int>, n: nat): int
    requires n <= |s|
  {
    if n == 0 then 0 else Val(s, n - 1) + s[n - 1] * PowB(n - 1)
  }

  lemma Pow2Step(k: int)
    ensures Pow2(k + 1) == 2.0 * Pow2(k)
  {
  }

  lemma Pow2B(a: int)
    ensures Pow2(a + 24) == 16777216.0 * Pow2(a)
  {
    hide Pow2;
    Pow2Step(a); Pow2Step(a + 1); Pow2Step(a + 2); Pow2Step(a + 3); Pow2Step(a + 4); Pow2Step(a + 5);
    Pow2Step(a + 6); Pow2Step(a + 7); Pow2Step(a + 8); Pow2Step(a + 9); Pow2Step(a + 10); Pow2Step(a + 11);
    Pow2Step(a + 12); Pow2Step(a + 13); Pow2Step(a + 14); Pow2Step(a + 15); Pow2Step(a + 16); Pow2Step(a + 17);
    Pow2Step(a + 18); Pow2Step(a + 19); Pow2Step(a + 20); Pow2Step(a + 21); Pow2Step(a + 22); Pow2Step(a + 23);
  }

  // ---------- Products of reals ----------

  /** A product of reals, kept apart from the linear reasoning about it. */
  function Times(a: real, u: real): real {
    a * u
  }

  lemma TimesSum(a: real, b: real, u: real)
    ensures Times(a + b, u) == Times(a, u) + Times(b, u)
    ensures Times(a - b, u) == Times(a, u) - Times(b, u)
    ensures Times(1.0, u) == u && Times(0.0, u) == 0.0
  {
  }

  lemma TimesMono(a: real, b: real, u: real)
    requires u > 0.0
    ensures a < b <==> Times(a, u) < Times(b, u)
  {
  }

  lemma TimesAssoc(a: real, b: real, u: real)
    ensures Times(Times(a, b), u) == Times(a, Times(b, u))
  {
  }

  lemma TimesScale(c: real, a: real, u: real)
    ensures Times(c * a, u) == c * Times(a, u) && Times(a, c * u) == c * Times(a, u)
  {
    hide Times;
    assert Times(c * a, u) == c * a * u by {
      TimesIs(c * a, u);
    }
    TimesIs(a, u);
    TimesIs(a, c * u);
    assert a * (c * u) == c * (a * u);
    assert c * a * u == c * (a * u);
  }

  lemma TimesIs(a: real, u: real)
    ensures Times(a, u) == a * u
  {
  }

  lemma ScaleStep(pn: real, p: real, u: real, v: real)
    requires pn == 16777216.0 * p && v == 16777216.0 * u
    ensures Times(pn, u) == Times(p, v)
  {
    TimesScale(16777216.0, p, u);
  }

  /** A digit vector of length n scaled by its unit spans the power above it. */
  lemma {:induction false} PowBScale(a: int, n: nat)
    ensures Times(PowB(n) as real, Pow2(a - 24 * n)) == Pow2(a)
  {
    hide Times, Pow2;
    if n == 0 {
      TimesSum(0.0, 0.0, Pow2(a));
    } else {
      PowBScale(a, n - 1);
      Pow2B(a - 24 * n);
      assert a - 24 * n + 24 == a - 24 * (n - 1);
      ScaleStep(PowB(n) as real, PowB(n - 1) as real, Pow2(a - 24 * n), Pow2(a - 24 * (n - 1)));
    }
  }

  lemma MulMono(a: int, b: int, p: int)
    requires 0 <= a <= b && 0 <= p
    ensures 0 <= a * p <= b * p
  {
  }

  lemma {:induction false} ValBounds(s: seq<int>, n: nat)
    requires n <= |s| && Digits(s[..n])
    ensures 0 <= Val(s, n) < PowB(n)
  {
    if n > 0 {
      assert s[..n - 1] == s[..n][..n - 1];
      assert forall i :: 0 <= i < n - 1 ==> s[..n - 1][i] == s[..n][i];
      ValBounds(s, n - 1);
      assert s[..n][n - 1] == s[n - 1];
      MulMono(s[n - 1], 0xff_ffff, PowB(n - 1));
    }
  }

  lemma {:induction false} ValSame(s: seq<int>, t: seq<int>, n: nat)
    requires n <= |s| && n <= |t| && forall i :: 0 <= i < n ==> s[i] == t[i]
    ensures Val(s, n) == Val(t, n)
  {
    if n > 0 {
      ValSame(s, t, n - 1);
    }
  }

  // ---------- The product, diagonal by diagonal ----------

  /** The digit of 2/pi with index k; there are none before the first. */
  function PiDigit(pi: seq<int>, k: int): int {
    if 0 <= k < |pi| then pi[k] else 0
  }

  /** The first n terms of the sum of the products x[j] * pi[s - j], which all have the same weight. */
  function DiagUpTo(x: seq<int>, pi: seq<int>, s: int, n: nat): int
    requires n <= |x|
  {
    if n == 0 then 0 else DiagUpTo(x, pi, s, n - 1) + x[n - 1] * PiDigit(pi, s - (n - 1))
  }

  function Diag(x: seq<int>, pi: seq<int>, s: int): int {
    DiagUpTo(x, pi, s, |x|)
  }

  /** The product of x * 2^e0 and 2/pi, up to and including diagonal n - 1. */
  ghost function Product(x: seq<int>, pi: seq<int>, e0: int, n: nat): real {
    if n == 0 then 0.0
    else Product(x, pi, e0, n - 1) + Times(Diag(x, pi, n - 1) as real, Pow2(e0 - 24 * n))
  }

  lemma {:induction false} DiagBound(x: seq<int>, pi: seq<int>, s: int, n: nat)
    requires n <= |x| && Digits(x) && Digits(pi)
    ensures 0 <= DiagUpTo(x, pi, s, n) <= n * (0xff_ffff * 0xff_ffff)
  {
    if n > 0 {
      DiagBound(x, pi, s, n - 1);
      var a, b := x[n - 1], PiDigit(pi, s - (n - 1));
      assert IsDigit(a) && IsDigit(b);
      MulMono(a, 0xff_ffff, b);
    }
  }

  /** Expands 2/pi, shifted by the digits that cannot matter, and multiplies it with the argument. */
  method SetUp(x: seq<int>, pi: seq<int>, jv: nat, jk: nat, f: array<int>, q: array<int>)
    requires |x| > 0 && |x| - 1 + jk < f.Length && jk < q.Length && f != q && jv + jk < |pi|
    modifies f, q
    ensures Expanded(x, pi, jv, jk, f[..]) && Multiplied(x, pi, jv, jk, q[..])
  {
    var jx := |x| - 1;
    var j, i := jv - jx, 0;
    while i <= jx + jk
      invariant 0 <= i <= jx + jk + 1 && j == jv - jx + i
      invariant forall k :: 0 <= k < i ==> f[k] == PiDigit(pi, jv - jx + k)
    {
      f[i] := if j < 0 then 0 else pi[j];
      i, j := i + 1, j + 1;
    }
    i := 0;
    while i <= jk
      invariant 0 <= i <= jk + 1 && Expanded(x, pi, jv, jk, f[..])
      invariant forall k :: 0 <= k < i ==> q[k] == Diag(x, pi, jv + k)
    {
      var fw := ProductTerm(x, pi, jv, jk, f, i);
      q[i] := fw;
      i := i + 1;
    }
  }

  ghost predicate Expanded(x: seq<int>, pi: seq<int>, jv: int, jz: int, f: seq<int>) {
    |x| + jz <= |f| && forall k :: 0 <= k < |x| + jz ==> f[k] == PiDigit(pi, jv - (|x| - 1) + k)
  }

  ghost predicate Multiplied(x: seq<int>, pi: seq<int>, jv: int, jz: int, q: seq<int>) {
    jz < |q| && forall k :: 0 <= k <= jz ==> q[k] == Diag(x, pi, jv + k)
  }

  /** The sum of the products x[j] * f[jx + i - j]. */
  method ProductTerm(x: seq<int>, pi: seq<int>, jv: nat, jz: nat, f: array<int>, i: nat) returns (fw: int)
    requires |x| > 0 && i <= jz && Expanded(x, pi, jv, jz, f[..])
    ensures fw == Diag(x, pi, jv + i)
  {
    var jx := |x| - 1;
    fw := 0;
    for j := 0 to |x|
      invariant fw == DiagUpTo(x, pi, jv + i, j)
    {
      assert f[..][jx + i - j] == PiDigit(pi, jv + i - j);
      fw := fw + x[j] * f[jx + i - j];
    }
  }

  // ---------- Distillation ----------

  /** The first n entries of q as a number, most significant first. */
  ghost function Horner(q: seq<int>, n: nat): int
    requires n <= |q|
  {
    if n == 0 then 0 else Horner(q, n - 1) * 0x100_0000 + q[n - 1]
  }

  lemma DistillStep(h: int, z: int, p: int, v: int)
    ensures (h * 0x100_0000 + z) * p + v == (h + z / 0x100_0000) * (0x100_0000 * p) + (v + z % 0x100_0000 * p)
  {
    var fw, d := z / 0x100_0000, z % 0x100_0000;
    assert z == fw * 0x100_0000 + d;
    assert h * 0x100_0000 + z == (h + fw) * 0x100_0000 + d;
    Distribute((h + fw) * 0x100_0000, d, p);
  }

  lemma Distribute(a: int, b: int, p: int)
    ensures (a + b) * p == a * p + b * p
  {
  }

  /** Breaks q into 24-bit digits, the last of q first, leaving the carry into q[0] in z. */
  method Distill(q: array<int>, iq: array<int>, jz: nat, ghost bound: nat) returns (z: int)
    requires jz < q.Length && jz <= iq.Length && q != iq
    requires forall i :: 0 <= i <= jz ==> 0 <= q[i] <= bound
    requires bound < 0x4_0000_0000_0000
    modifies iq
    ensures Horner(q[..], jz + 1) == z * PowB(jz) + Val(iq[..], jz)
    ensures Digits(iq[..jz]) && 0 <= z < bound + 0x800_0000 < EXACT
    ensures forall i :: jz <= i < iq.Length ==> iq[i] == old(iq[i])
  {
    var i, j := 0, jz;
    z := q[jz];
    while j > 0
      invariant 0 <= i <= jz && j == jz - i && 0 <= z < bound + 0x800_0000
      invariant Horner(q[..], jz + 1) == (Horner(q[..], j) * 0x100_0000 + z) * PowB(i) + Val(iq[..], i)
      invariant forall k :: 0 <= k < i ==> IsDigit(iq[k])
      invariant forall k :: jz <= k < iq.Length ==> iq[k] == old(iq[k])
    {
      ghost var before := iq[..];
      var fw := z / 0x100_0000;
      assert 0 <= fw < 0x800_0000;
      iq[i] := z - 0x100_0000 * fw;
      ValSame(before, iq[..], i);
      DistillStep(Horner(q[..], j), z, PowB(i), Val(iq[..], i));
      z := q[j - 1] + fw;
      i, j := i + 1, j - 1;
    }
  }

  // ---------- The quadrant ----------

  /** A negative power of two divides one. */
  lemma {:induction false} Reciprocal(k: int)
    requires k <= 0
    ensures Times(Power2(-k) as real, Pow2(k)) == 1.0
    decreases -k
  {
    hide Times;
    if k == 0 {
      TimesSum(0.0, 0.0, Pow2(k));
    } else {
      Reciprocal(k + 1);
      Pow2Step(k);
      TimesScale(2.0, Power2(-(k + 1)) as real, Pow2(k));
    }
  }

  function Units(m: int, unit: real): real {
    Times(m as real, unit)
  }

  /** z is a whole number of units. */
  ghost predicate Multiple(z: real, unit: real) {
    exists m: int :: z == Units(m, unit)
  }

  /** z, less a whole number, keeps being a whole number of units when the unit divides one. */
  lemma FractionMultiple(z0: int, q0: int, whole: int)
    requires q0 <= 0
    ensures Multiple(Times(z0 as real, Pow2(q0)) - whole as real, Pow2(q0))
  {
    hide Times, Pow2;
    var u, inv := Pow2(q0), Power2(-q0);
    Reciprocal(q0);
    WholeUnits(whole, inv, u);
    TimesSum(z0 as real, (whole * inv) as real, u);
    assert Times(z0 as real, u) - whole as real == Units(z0 - whole * inv, u);
  }

  lemma WholeUnits(whole: int, inv: int, u: real)
    requires Times(inv as real, u) == 1.0
    ensures Times((whole * inv) as real, u) == whole as real
  {
    assert (whole * inv) as real == Times(whole as real, inv as real);
    TimesAssoc(whole as real, inv as real, u);
  }

  /** The integer part modulo 8 of a nonnegative number, and its fraction. */
  method Modulo8(scaled: real) returns (n: int, z: real, ghost eights: int)
    requires scaled >= 0.0
    ensures scaled == (8 * eights + n) as real + z
    ensures 0 <= n < 8 && 0.0 <= z < 1.0
  {
    z := scaled - 8.0 * (scaled * 0.125).Floor as real;
    n := z.Floor;
    z := z - n as real;
    eights := (scaled * 0.125).Floor;
  }

  /** The integer part modulo 8 of z0 * 2^q0, and its fraction. */
  method IntegerPart(z0: int, q0: int) returns (n: int, z: real, ghost eights: int)
    requires 0 <= z0 && q0 <= 2
    ensures Times(z0 as real, Pow2(q0)) == (8 * eights + n) as real + z
    ensures 0 <= n < 8 && 0.0 <= z < 1.0
    ensures q0 <= 0 ==> Multiple(z, Pow2(q0))
    ensures q0 >= 0 ==> z == 0.0
    ensures q0 == 1 ==> n % 2 == 0
    ensures q0 == 2 ==> n % 4 == 0
  {
    hide Times, Pow2;
    TimesNonneg(z0 as real, Pow2(q0));
    n, z, eights := Modulo8(Times(z0 as real, Pow2(q0)));
    if q0 <= 0 {
      FractionMultiple(z0, q0, 8 * eights + n);
    }
    WholeFraction(z0, q0, 8 * eights + n, z);
  }

  lemma WholeFraction(z0: int, q0: int, whole: int, z: real)
    requires Times(z0 as real, Pow2(q0)) == whole as real + z && 0.0 <= z < 1.0
    ensures q0 == 0 ==> z == 0.0 && whole == z0
    ensures q0 == 1 ==> z == 0.0 && whole == 2 * z0
    ensures q0 == 2 ==> z == 0.0 && whole == 4 * z0
  {
    SmallPowers();
    hide Times, Pow2;
    TimesSum(0.0, 0.0, z0 as real);
    if 0 <= q0 <= 2 {
      TimesIs(z0 as real, Pow2(q0));
    }
    if q0 == 1 {
      assert z == (2 * z0 - whole) as real;
    } else if q0 == 2 {
      assert z == (4 * z0 - whole) as real;
    } else if q0 == 0 {
      assert z == (z0 - whole) as real;
    }
  }

  lemma TimesNonneg(a: real, u: real)
    requires a >= 0.0 && u >= 0.0
    ensures Times(a, u) >= 0.0
  {
  }

  lemma SmallPowers()
    ensures Pow2(0) == 1.0 && Pow2(1) == 2.0 && Pow2(2) == 4.0
  {
    Pow2Step(0);
    Pow2Step(1);
  }

  /** The number that z and the first jz entries of iq stand for, z having weight one and the top digit
      weight 2^(q0 - 24). */
  ghost function Fraction(z: real, iq: seq<int>, jz: nat, q0: int): real
    requires jz <= |iq|
  {
    z + Times(Val(iq, jz) as real, Pow2(q0 - 24 * jz))
  }

  lemma Weigh(v: int, d: int, p: int, w: real)
    ensures Times((v + d * p) as real, w) == Times(v as real, w) + Times(d as real, Times(p as real, w))
  {
    assert (d * p) as real == Times(d as real, p as real);
    TimesAssoc(d as real, p as real, w);
    TimesSum(v as real, (d * p) as real, w);
  }

  /** The top digit carries all but a part of its own unit. */
  lemma TopDigit(iq: seq<int>, jz: nat, q0: int) returns (low: real)
    requires 0 < jz <= |iq| && Digits(iq[..jz])
    ensures Times(Val(iq, jz) as real, Pow2(q0 - 24 * jz)) == low + Times(iq[jz - 1] as real, Pow2(q0 - 24))
    ensures 0.0 <= low < Pow2(q0 - 24) && Pow2(q0) == 16777216.0 * Pow2(q0 - 24)
    ensures IsDigit(iq[jz - 1]) && low == Times(Val(iq, jz - 1) as real, Pow2(q0 - 24 * jz))
  {
    hide Pow2, PowB, Times;
    var w, p, v, d := Pow2(q0 - 24 * jz), PowB(jz - 1), Val(iq, jz - 1), iq[jz - 1];
    assert iq[..jz][jz - 1] == d;
    assert forall i :: 0 <= i < jz - 1 ==> iq[..jz - 1][i] == iq[..jz][i];
    ValBounds(iq, jz - 1);
    PowBScale(q0 - 24, jz - 1);
    assert q0 - 24 - 24 * (jz - 1) == q0 - 24 * jz;
    Pow2B(q0 - 24);
    low := Times(v as real, w);
    TimesNonneg(v as real, w);
    TimesMono(v as real, p as real, w);
    Weigh(v, d, p, w);
  }

  /** All the digits together are less than the weight above them. */
  lemma DigitsBelow(iq: seq<int>, jz: nat, q0: int)
    requires jz <= |iq| && Digits(iq[..jz])
    ensures 0.0 <= Times(Val(iq, jz) as real, Pow2(q0 - 24 * jz)) < Pow2(q0)
  {
    hide Pow2, PowB, Val, Times;
    ValBounds(iq, jz);
    PowBScale(q0, jz);
    TimesNonneg(Val(iq, jz) as real, Pow2(q0 - 24 * jz));
    TimesMono(Val(iq, jz) as real, PowB(jz) as real, Pow2(q0 - 24 * jz));
  }

  /** Below a half, or below one, a whole number of units leaves room for one more. */
  lemma RoomForUnit(z: real, q0: int)
    requires q0 < 0 && Multiple(z, Pow2(q0))
    ensures z < 0.5 ==> z + Pow2(q0) <= 0.5
    ensures z < 1.0 ==> z + Pow2(q0) <= 1.0
  {
    hide Pow2, Times;
    var u := Pow2(q0);
    var m: int :| z == Units(m, u);
    Reciprocal(q0);
    var one := Power2(-q0);
    var half := Power2(-q0 - 1);
    assert one == 2 * half;
    TimesScale(2.0, half as real, u);
    CompareUnits(m, half, u);
    CompareUnits(m, one, u);
  }

  lemma CompareUnits(a: int, b: int, u: real)
    requires u > 0.0
    ensures Times(a as real, u) < Times(b as real, u) <==> a < b
    ensures a < b ==> Times(a as real, u) + u <= Times(b as real, u)
  {
    hide Times;
    TimesMono(a as real, b as real, u);
    TimesMono(b as real, (a + 1) as real, u);
    TimesSum(a as real, 1.0, u);
  }

  lemma ShiftValues()
    ensures Power2(21) == 0x20_0000 && Power2(22) == 0x40_0000 && Power2(23) == 0x80_0000
  {
    assert Power2(4) == 0x10;
    assert Power2(8) == 0x100;
    assert Power2(12) == 0x1000;
    assert Power2(16) == 0x1_0000;
    assert Power2(20) == 0x10_0000;
    assert Power2(21) == 0x20_0000;
  }

  /** What is known of a fraction below one once its top bits have been counted into the quadrant: ih tells
      on which side of a half it lies. */
  ghost predicate Halved(z: real, iq: seq<int>, jz: nat, q0: int, ih: int)
    requires 0 < jz <= |iq|
  {
    && Digits(iq[..jz]) && 0 <= ih <= 2
    && 0.0 <= Fraction(z, iq, jz, q0) < 1.0
    && (ih == 0 ==> Fraction(z, iq, jz, q0) < 0.5)
    && (ih > 0 ==> Fraction(z, iq, jz, q0) >= 0.5)
    && (ih == 1 ==> q0 >= 0)
    && (ih == 2 <==> q0 < 0 && z >= 0.5)
    && (0 < q0 <= 24 ==> 0 <= iq[jz - 1] < Power2(24 - q0))
  }

  /** Changing the top digit changes the fraction by as many of that digit's units. */
  lemma ReplaceTop(z: real, s: seq<int>, t: seq<int>, jz: nat, q0: int)
    requires 0 < jz <= |s| == |t| && Digits(s[..jz]) && Digits(t[..jz])
    requires forall i :: 0 <= i < jz - 1 ==> s[i] == t[i]
    ensures Fraction(z, s, jz, q0) - Fraction(z, t, jz, q0) == Times((s[jz - 1] - t[jz - 1]) as real, Pow2(q0 - 24))
  {
    hide Pow2, Val, Times;
    var a := TopDigit(s, jz, q0);
    var b := TopDigit(t, jz, q0);
    ValSame(s, t, jz - 1);
    TimesSum(s[jz - 1] as real, t[jz - 1] as real, Pow2(q0 - 24));
    assert s[jz - 1] as real - t[jz - 1] as real == (s[jz - 1] - t[jz - 1]) as real;
  }

  /** A number of units and a part of one more, against a number of units. */
  lemma CompareParts(low: real, d: int, n: int, u: real)
    requires 0.0 <= low < u
    ensures low + Times(d as real, u) < Times(n as real, u) <==> d < n
  {
    hide Times;
    CompareUnits(d, n, u);
    CompareUnits(n, d, u);
  }

  lemma UnitsAgainstHalf(low: real, d: int, half: int, u: real)
    requires 0.0 <= low < u && 0 <= d < 2 * half && Times(half as real, u) == 0.5
    ensures 0.0 <= low + Times(d as real, u) < 1.0
    ensures low + Times(d as real, u) < 0.5 <==> d < half
  {
    hide Times;
    CompareParts(low, d, half, u);
    CompareParts(low, d, 2 * half, u);
    TimesScale(2.0, half as real, u);
    assert 2.0 * half as real == (2 * half) as real;
    TimesNonneg(d as real, u);
  }

  /** Which side of a half a fraction without integer part lies on. */
  lemma SideOfHalf(iq: seq<int>, jz: nat, q0: int)
    requires 0 < jz <= |iq| && Digits(iq[..jz]) && 0 <= q0 <= 2
    requires iq[jz - 1] < (if q0 == 0 then 0x100_0000 else if q0 == 1 then 0x80_0000 else 0x40_0000)
    ensures 0.0 <= Fraction(0.0, iq, jz, q0) < 1.0
    ensures Fraction(0.0, iq, jz, q0) < 0.5 <==>
              iq[jz - 1] < (if q0 == 0 then 0x80_0000 else if q0 == 1 then 0x40_0000 else 0x20_0000)
  {
    hide Pow2, Val, Times;
    SmallPowers();
    var low := TopDigit(iq, jz, q0);
    var half := if q0 == 0 then 0x80_0000 else if q0 == 1 then 0x40_0000 else 0x20_0000;
    TimesIs(half as real, Pow2(q0 - 24));
    UnitsAgainstHalf(low, iq[jz - 1], half, Pow2(q0 - 24));
  }

  /** With a negative exponent the fraction proper is in z, and the digits are less than its unit. */
  lemma SideOfHalfBelow(z: real, iq: seq<int>, jz: nat, q0: int)
    requires 0 < jz <= |iq| && Digits(iq[..jz]) && q0 < 0 && Multiple(z, Pow2(q0)) && 0.0 <= z < 1.0
    ensures 0.0 <= Fraction(z, iq, jz, q0) < 1.0
    ensures Fraction(z, iq, jz, q0) < 0.5 <==> z < 0.5
  {
    hide Pow2, Val, Times, Multiple;
    DigitsBelow(iq, jz, q0);
    RoomForUnit(z, q0);
  }

  /** Counts the top bits of the digits into the quadrant when the digits start before the binary point. */
  method HighBits(iq: array<int>, jz: nat, q0: int, n0: int, z: real) returns (n: int, ih: int)
    requires 0 < jz <= iq.Length && Digits(iq[..jz]) && q0 <= 2
    requires 0.0 <= z < 1.0 && (q0 >= 0 ==> z == 0.0) && (q0 <= 0 ==> Multiple(z, Pow2(q0)))
    modifies iq
    ensures Halved(z, iq[..], jz, q0, ih)
    ensures n as real + Fraction(z, iq[..], jz, q0) == n0 as real + Fraction(z, old(iq[..]), jz, q0)
    ensures forall i :: 0 <= i < iq.Length && i != jz - 1 ==> iq[i] == old(iq[i])
  {
    hide Fraction, Pow2, Val, Times, Power2, Multiple;
    ghost var before := iq[..];
    ShiftValues();
    assert IsDigit(iq[..jz][jz - 1]);
    n, ih := n0, 0;
    if q0 > 0 {
      var i := iq[jz - 1] / Power2(24 - q0);
      n := n + i;
      iq[jz - 1] := iq[jz - 1] - i * Power2(24 - q0);
      ih := iq[jz - 1] / Power2(23 - q0);
      ReplaceTop(z, before, iq[..], jz, q0);
      TopBits(q0, i);
      SideOfHalf(iq[..], jz, q0);
    } else if q0 == 0 {
      ih := iq[jz - 1] / 0x80_0000;
      SideOfHalf(iq[..], jz, q0);
    } else {
      if z >= 0.5 {
        ih := 2;
      }
      SideOfHalfBelow(z, iq[..], jz, q0);
    }
  }

  /** The bits above the binary point in the top digit are worth their count. */
  lemma TopBits(q0: int, i: int)
    requires 1 <= q0 <= 2
    ensures Times((i * Power2(24 - q0)) as real, Pow2(q0 - 24)) == i as real
  {
    hide Pow2, Times, Power2;
    ShiftValues();
    SmallPowers();
    Pow2B(q0 - 24);
    TimesIs(Power2(24 - q0) as real, Pow2(q0 - 24));
    WholeUnits(i, Power2(24 - q0), Pow2(q0 - 24));
  }

  // ---------- One minus the fraction ----------

  /** Replaces the number in the first jz digits by its complement, unless it is zero. */
  method Complement(iq: array<int>, jz: nat) returns (carry: int)
    requires 0 < jz <= iq.Length && Digits(iq[..jz])
    modifies iq
    ensures Digits(iq[..jz]) && (carry == 0 || carry == 1)
    ensures carry == 0 ==> iq[..] == old(iq[..]) && Val(iq[..], jz) == 0
    ensures carry == 1 ==> Val(iq[..], jz) == PowB(jz) - Val(old(iq[..]), jz)
    ensures carry == 1 ==>
      iq[jz - 1] == 0xff_ffff - old(iq[jz - 1]) || (old(iq[jz - 1]) > 0 && iq[jz - 1] == 0x100_0000 - old(iq[jz - 1]))
    ensures forall i :: jz <= i < iq.Length ==> iq[i] == old(iq[i])
  {
    ghost var s := iq[..];
    assert forall i :: 0 <= i < jz ==> IsDigit(s[..jz][i]);
    carry := 0;
    var i := 0;
    while i < jz
      invariant 0 <= i <= jz && (carry == 0 || carry == 1)
      invariant forall k :: i <= k < iq.Length ==> iq[k] == s[k]
      invariant forall k :: 0 <= k < jz ==> IsDigit(iq[k])
      invariant carry == 0 ==> Val(s, i) == 0 && iq[..] == s
      invariant carry == 1 ==> Val(iq[..], i) + Val(s, i) == PowB(i)
      invariant carry == 1 && i > 0 ==>
        iq[i - 1] == 0xff_ffff - s[i - 1] || (s[i - 1] > 0 && iq[i - 1] == 0x100_0000 - s[i - 1])
    {
      ghost var before := iq[..];
      var j := iq[i];
      if carry == 0 {
        if j != 0 {
          carry := 1;
          iq[i] := 0x100_0000 - j;
        }
      } else {
        iq[i] := 0xff_ffff - j;
      }
      ValSame(before, iq[..], i);
      ComplementDigit(j, PowB(i));
      i := i + 1;
    }
  }

  lemma ComplementDigit(j: int, p: int)
    ensures (0x100_0000 - j) * p + j * p == 0x100_0000 * p
    ensures (0xff_ffff - j) * p + j * p == 0x100_0000 * p - p
  {
  }

  /** The complement of the digits is worth the weight above them less what they were worth. */
  lemma ComplementWorth(s: seq<int>, t: seq<int>, jz: nat, q0: int)
    requires jz <= |s| && jz <= |t| && Val(t, jz) == PowB(jz) - Val(s, jz)
    ensures Times(Val(t, jz) as real, Pow2(q0 - 24 * jz)) == Pow2(q0) - Times(Val(s, jz) as real, Pow2(q0 - 24 * jz))
  {
    hide Times, Pow2, Val, PowB;
    PowBScale(q0, jz);
    TimesSum(PowB(jz) as real, Val(s, jz) as real, Pow2(q0 - 24 * jz));
    assert PowB(jz) as real - Val(s, jz) as real == (PowB(jz) - Val(s, jz)) as real;
  }

  /** Clears the bits of the top digit that lie before the binary point. */
  method Mask(iq: array<int>, jz: nat, q0: int, ghost z: real)
    requires 0 < jz <= iq.Length && Digits(iq[..jz]) && 1 <= q0 <= 2
    requires iq[jz - 1] >= 0x100_0000 - Power2(24 - q0)
    modifies iq
    ensures Digits(iq[..jz]) && Fraction(z, iq[..], jz, q0) == Fraction(z, old(iq[..]), jz, q0) - (Pow2(q0) - 1.0)
    ensures forall i :: jz <= i < iq.Length ==> iq[i] == old(iq[i])
  {
    hide Fraction, Pow2, Times, Power2;
    ghost var before := iq[..];
    ShiftValues();
    SmallPowers();
    assert IsDigit(iq[..jz][jz - 1]);
    match q0 {
      case 1 => iq[jz - 1] := iq[jz - 1] % 0x80_0000;
      case 2 => iq[jz - 1] := iq[jz - 1] % 0x40_0000;
    }
    assert forall i :: 0 <= i < jz - 1 ==> iq[..jz][i] == before[..jz][i];
    ReplaceTop(z, before, iq[..], jz, q0);
    TopBits(q0, before[jz - 1] / Power2(24 - q0));
  }

  /** When the fraction is a half or more, counts it into the quadrant and keeps what it lacks to one. */
  method Fold(iq: array<int>, jz: nat, q0: int, n0: int, z0: real, ih: int) returns (n: int, z: real)
    requires 0 < jz <= iq.Length && q0 <= 2 && Halved(z0, iq[..], jz, q0, ih)
    requires 0.0 <= z0 < 1.0 && (q0 >= 0 ==> z0 == 0.0) && (q0 <= 0 ==> Multiple(z0, Pow2(q0)))
    modifies iq
    ensures Digits(iq[..jz])
    ensures ih == 0 ==> n == n0 && Fraction(z, iq[..], jz, q0) == Fraction(z0, old(iq[..]), jz, q0)
    ensures ih > 0 ==> n == n0 + 1 && Fraction(z, iq[..], jz, q0) == 1.0 - Fraction(z0, old(iq[..]), jz, q0)
    ensures 0.0 <= z && (q0 >= 0 ==> z == 0.0) && (q0 <= 0 ==> Multiple(z, Pow2(q0)))
    ensures forall i :: jz <= i < iq.Length ==> iq[i] == old(iq[i])
  {
    hide Pow2, Times, Val, PowB, Multiple, Power2;
    n, z := n0, z0;
    if ih > 0 {
      n := n + 1;
      ghost var before := iq[..];
      ShiftValues();
      SmallPowers();
      TimesSum(0.0, 0.0, Pow2(q0 - 24 * jz));
      var carry := Complement(iq, jz);
      if carry == 1 {
        ComplementWorth(before, iq[..], jz, q0);
      }
      if q0 > 0 {
        Mask(iq, jz, q0, z);
      }
      if ih == 2 {
        RoomForUnit(z0, q0);
        OneMinus(z0, q0);
        z := 1.0 - z;
        if carry != 0 {
          z := z - Pow2(q0);
        }
      }
    }
  }

  /** What whole numbers of units lack to one are whole numbers of units. */
  lemma OneMinus(z: real, q0: int)
    requires q0 <= 0 && Multiple(z, Pow2(q0))
    ensures Multiple(1.0 - z, Pow2(q0)) && Multiple(1.0 - z - Pow2(q0), Pow2(q0))
  {
    hide Pow2, Times;
    var u, one := Pow2(q0), Power2(-q0);
    var m: int :| z == Units(m, u);
    Reciprocal(q0);
    TimesSum(one as real, m as real, u);
    TimesSum((one - m) as real, 1.0, u);
    assert 1.0 - z == Units(one - m, u);
    assert 1.0 - z - u == Units(one - m - 1, u);
  }

  // ---------- Chopping ----------

  /** What the digits 0 to jz stand for, the top one having weight 2^q0. */
  ghost function DigitsValue(iq: seq<int>, jz: nat, q0: int): real
    requires jz < |iq|
  {
    Times(Val(iq, jz + 1) as real, Pow2(q0 - 24 * jz))
  }

  lemma {:induction false} PositivePower(k: nat)
    ensures Pow2(k) == Power2(k) as real
  {
    if k > 0 {
      PositivePower(k - 1);
    }
  }

  /** Scaling by the reciprocal of the unit counts the units. */
  lemma CountUnits(z: real, q0: int, m: int)
    requires q0 <= 0 && z == Units(m, Pow2(q0))
    ensures Times(z, Pow2(-q0)) == m as real
  {
    hide Times, Pow2;
    Reciprocal(q0);
    PositivePower(-q0);
    var u, inv := Pow2(q0), Power2(-q0) as real;
    TimesAssoc(m as real, u, inv);
    TimesSwap(u, inv);
    TimesSwap(m as real, 1.0);
    TimesSum(0.0, 0.0, m as real);
  }

  lemma TimesSwap(a: real, u: real)
    ensures Times(a, u) == Times(u, a)
  {
  }

  /** Adding the units of z on top of the digits. */
  lemma AddTop(s: seq<int>, t: seq<int>, jz: nat, q0: int, z: real, m: int)
    requires jz <= |s| && jz <= |t| && z == Units(m, Pow2(q0))
    requires Val(t, jz) == Val(s, jz)
    ensures Times((Val(t, jz) + m * PowB(jz)) as real, Pow2(q0 - 24 * jz)) == Fraction(z, s, jz, q0)
  {
    hide Times, Pow2, PowB, Val;
    Weigh(Val(t, jz), m, PowB(jz), Pow2(q0 - 24 * jz));
    PowBScale(q0, jz);
  }

  /** Some digit below jz is not zero. */
  predicate NonZero(s: seq<int>, jz: nat)
    requires jz <= |s|
  {
    exists i :: 0 <= i < jz && s[i] != 0
  }

  lemma NonZeroBelow(s: seq<int>, jz: nat)
    requires 0 < jz <= |s| && NonZero(s, jz) && s[jz - 1] == 0
    ensures jz > 1 && NonZero(s, jz - 1) && Val(s, jz) == Val(s, jz - 1)
  {
    var i :| 0 <= i < jz && s[i] != 0;
    assert 0 * PowB(jz - 1) == 0;
  }

  lemma {:induction false} Pow2nMono(a: nat, b: nat)
    requires a <= b
    ensures Power2(a) <= Power2(b)
    decreases b
  {
    if a < b {
      Pow2nMono(a, b - 1);
    }
  }

  /** The units that a positive z is made of. */
  lemma UnitsOf(z: real, q0: int) returns (m: int)
    requires q0 < 0 && Multiple(z, Pow2(q0)) && z > 0.0
    ensures z == Units(m, Pow2(q0)) && m > 0 && Times(z, Pow2(-q0)) == m as real
    ensures z <= 0.5 && -48 <= q0 ==> m <= 0x8000_0000_0000
  {
    hide Times, Pow2;
    var u := Pow2(q0);
    m :| z == Units(m, u);
    CountUnits(z, q0, m);
    TimesSum(0.0, 0.0, u);
    CompareUnits(0, m, u);
    if z <= 0.5 && -48 <= q0 {
      Reciprocal(q0);
      var half := Power2(-q0 - 1);
      TimesScale(2.0, half as real, u);
      assert Power2(-q0) as real == 2.0 * half as real;
      CompareUnits(half, m, u);
      Pow2nMono(-q0 - 1, 47);
      LargePower();
    }
  }

  lemma LargePower()
    ensures Power2(47) == 0x8000_0000_0000
  {
    ShiftValues();
    hide Power2;
    PowerStep(23, 8); PowerStep(31, 8); PowerStep(39, 8);
  }

  lemma PowerStep(a: nat, b: nat)
    requires b == 8
    ensures Power2(a + b) == 0x100 * Power2(a)
  {
    assert Power2(a + 8) == 2 * Power2(a + 7) && Power2(a + 7) == 2 * Power2(a + 6) &&
        Power2(a + 6) == 2 * Power2(a + 5);
    assert Power2(a + 5) == 2 * Power2(a + 4) && Power2(a + 4) == 2 * Power2(a + 3) &&
        Power2(a + 3) == 2 * Power2(a + 2);
    assert Power2(a + 2) == 2 * Power2(a + 1) && Power2(a + 1) == 2 * Power2(a);
  }

  /** A number in two digits, on top of the others. */
  lemma TwoDigits(s: seq<int>, jz: nat, m: int)
    requires jz + 1 < |s| && m == s[jz + 1] * 0x100_0000 + s[jz]
    ensures Val(s, jz + 2) == Val(s, jz) + m * PowB(jz)
  {
    assert Val(s, jz + 2) == Val(s, jz) + s[jz] * PowB(jz) + s[jz + 1] * PowB(jz + 1);
    Carry(s[jz + 1], s[jz], PowB(jz));
  }

  lemma Carry(a: int, b: int, p: int)
    ensures (a * 0x100_0000 + b) * p == b * p + a * (0x100_0000 * p)
  {
  }

  /** z is no more than one digit on top of the others. */
  predicate OneDigit(z: real, q0: int) {
    Times(z, Pow2(-q0)) < 16777216.0
  }

  lemma NoDigit(q0: int)
    ensures OneDigit(0.0, q0)
  {
    hide Pow2;
    TimesSum(0.0, 0.0, Pow2(-q0));
  }

  /** Drops zero digits from the top, or breaks z into digits on top of the others. */
  method Chop(iq: array<int>, jz0: nat, q00: int, z: real) returns (jz: nat, q0: int)
    requires 0 < jz0 < iq.Length && Digits(iq[..jz0]) && (jz0 + 1 == iq.Length ==> OneDigit(z, q00))
    requires 0.0 <= z && (q00 >= 0 ==> z == 0.0) && (q00 <= 0 ==> Multiple(z, Pow2(q00)))
    requires z == 0.0 ==> NonZero(iq[..], jz0)
    modifies iq
    ensures jz < iq.Length && iq[jz] != 0 && DigitsValue(iq[..], jz, q0) == Fraction(z, old(iq[..]), jz0, q00)
    ensures -48 <= q00 && z <= 0.5 ==> Digits(iq[..jz + 1])
  {
    hide Pow2, Times, PowB, Power2, Multiple, NonZero;
    ghost var before := iq[..];
    if z == 0.0 {
      jz, q0 := jz0 - 1, q00 - 24;
      assert q0 - 24 * jz == q00 - 24 * jz0;
      while iq[jz] == 0
        invariant jz < jz0 && NonZero(before, jz + 1)
        invariant q0 - 24 * jz == q00 - 24 * jz0 && Val(before, jz + 1) == Val(before, jz0)
        invariant iq[..] == before
        decreases jz
      {
        NonZeroBelow(before, jz + 1);
        jz, q0 := jz - 1, q0 - 24;
      }
    } else {
      var scaled := Times(z, Pow2(-q00));
      ghost var m := UnitsOf(z, q00);
      jz, q0 := jz0, q00;
      if scaled >= 16777216.0 {
        var fw := (scaled / 16777216.0).Floor;
        iq[jz] := (scaled - 16777216.0 * fw as real).Floor;
        jz, q0 := jz + 1, q0 + 24;
        iq[jz] := fw;
        ValSame(before, iq[..], jz0);
        TwoDigits(iq[..], jz0, m);
      } else {
        iq[jz] := scaled.Floor;
        ValSame(before, iq[..], jz0);
      }
      AddTop(before, iq[..], jz0, q00, z, m);
    }
  }

  // ---------- The terms left out ----------

  /** How many digits of 2/pi to skip: C's division truncates toward zero. */
  function Skipped(e0: int): (jv: nat)
    ensures e0 - 24 * (jv + 1) <= 2
    ensures jv > 0 ==> 24 * jv <= e0 - 3
  {
    var quotient := if e0 >= 3 then (e0 - 3) / 24 else -((3 - e0) / 24);
    if quotient < 0 then 0 else quotient
  }

  lemma {:induction false} EightDivides(k: nat)
    requires k >= 3
    ensures Power2(k) % 8 == 0
  {
    if k > 3 {
      EightDivides(k - 1);
    }
  }

  /** The diagonals whose weight is a multiple of eight contribute a multiple of eight. */
  lemma {:induction false} SkippedEights(x: seq<int>, pi: seq<int>, e0: int, n: nat) returns (eights: int)
    requires n > 0 ==> 24 * n <= e0 - 3
    ensures Product(x, pi, e0, n) == (8 * eights) as real
  {
    hide Pow2, Times, Diag;
    if n == 0 {
      eights := 0;
    } else {
      var rest := SkippedEights(x, pi, e0, n - 1);
      var k: nat := e0 - 24 * n;
      PositivePower(k);
      EightDivides(k);
      var d, eighth := Diag(x, pi, n - 1), Power2(k) / 8;
      TimesIs(d as real, Pow2(k));
      assert Power2(k) == 8 * eighth;
      eights := rest + d * eighth;
      EightTimes(d, eighth);
    }
  }

  lemma EightTimes(d: int, e: int)
    ensures d as real * (8 * e) as real == (8 * (d * e)) as real
  {
  }

  /** The remaining diagonals are the number that q holds, most significant entry first. */
  lemma {:induction false} RestOfProduct(x: seq<int>, pi: seq<int>, e0: int, jv: nat, q: seq<int>, n: nat)
    requires 0 < n <= |q| && Multiplied(x, pi, jv, n - 1, q)
    ensures Product(x, pi, e0, jv + n) - Product(x, pi, e0, jv)
            == Times(Horner(q, n) as real, Pow2(e0 - 24 * (jv + n)))
  {
    hide Pow2, Times, Diag;
    var u := Pow2(e0 - 24 * (jv + n));
    assert Product(x, pi, e0, jv + n) == Product(x, pi, e0, jv + n - 1) + Times(Diag(x, pi, jv + n - 1) as real, u);
    assert q[n - 1] == Diag(x, pi, jv + (n - 1)) && jv + (n - 1) == jv + n - 1;
    if n > 1 {
      RestOfProduct(x, pi, e0, jv, q, n - 1);
      Pow2B(e0 - 24 * (jv + n));
      assert e0 - 24 * (jv + n) + 24 == e0 - 24 * (jv + (n - 1));
      TimesScale(16777216.0, Horner(q, n - 1) as real, u);
    } else {
      assert Horner(q, 1) == q[0];
      TimesSum(0.0, 0.0, u);
    }
    TimesSum((Horner(q, n - 1) * 0x100_0000) as real, q[n - 1] as real, u);
  }

  /** The product is what distillation has made of it, but for multiples of eight. */
  lemma ProductDistilled(x: seq<int>, pi: seq<int>, e0: int, jv: nat, q: seq<int>, iq: seq<int>, jz: nat, z: int)
    returns (eights: int)
    requires jv == Skipped(e0) && jz < |q| && jz <= |iq| && Multiplied(x, pi, jv, jz, q)
    requires Horner(q, jz + 1) == z * PowB(jz) + Val(iq, jz)
    ensures Product(x, pi, e0, jv + jz + 1)
            == (8 * eights) as real + Times(z as real, Pow2(e0 - 24 * (jv + 1))) + Times(Val(iq, jz) as real,
                Pow2(e0 - 24 * (jv + 1) - 24 * jz))
  {
    hide Pow2, Times, Diag, Horner, Val, Product, PowB, Multiplied;
    eights := SkippedEights(x, pi, e0, jv);
    RestOfProduct(x, pi, e0, jv, q, jz + 1);
    assert jv + (jz + 1) == jv + jz + 1 && e0 - 24 * (jv + (jz + 1)) == e0 - 24 * (jv + 1) - 24 * jz;
    Weigh(Val(iq, jz), z, PowB(jz), Pow2(e0 - 24 * (jv + 1) - 24 * jz));
    PowBScale(e0 - 24 * (jv + 1), jz);
  }

  // ---------- The whole reduction ----------

  lemma DiagSize(x: seq<int>, pi: seq<int>, s: int)
    requires |x| <= 3 && Digits(x) && Digits(pi)
    ensures 0 <= Diag(x, pi, s) <= 3 * (0xff_ffff * 0xff_ffff)
  {
    DiagBound(x, pi, s, |x|);
  }

  /** n + v or n - v is the product of x * 2^e0 with the first `terms` digits of 2/pi, modulo eight. */
  ghost predicate Reduced(x: seq<int>, pi: seq<int>, e0: int, terms: nat, n: int, ih: int, v: real) {
    && 0.0 <= v <= 0.5
    && exists eights: int :: Product(x, pi, e0, terms) == Signed(8 * eights + n, ih, v)
  }

  ghost function Signed(whole: int, ih: int, v: real): real {
    if ih == 0 then whole as real + v else whole as real - v
  }

  /** One computation of the quadrant and the fraction from the products in q. */
  method Pass(x: seq<int>, pi: seq<int>, e0: int, q: array<int>, iq: array<int>, jz: nat)
        returns (n: int, ih: int, z: real)
    requires 0 < |x| <= 3 && Digits(x) && Digits(pi) && q != iq && 0 < jz < q.Length && jz <= iq.Length
    requires Multiplied(x, pi, Skipped(e0), jz, q[..])
    modifies iq
    ensures Digits(iq[..jz]) && 0.0 <= z <= 0.5
    ensures Reduced(x, pi, e0, Skipped(e0) + jz + 1, n, ih, Fraction(z, iq[..], jz, e0 - 24 * (Skipped(e0) + 1)))
    ensures e0 - 24 * (Skipped(e0) + 1) >= 0 ==> z == 0.0
    ensures e0 - 24 * (Skipped(e0) + 1) <= 0 ==> Multiple(z, Pow2(e0 - 24 * (Skipped(e0) + 1)))
    ensures forall i :: jz <= i < iq.Length ==> iq[i] == old(iq[i])
  {
    hide Pow2, Times, Diag, Horner, Val, Product, PowB, Multiple, Halved, Digits;
    var jv := Skipped(e0);
    var q0 := e0 - 24 * (jv + 1);
    forall i | 0 <= i <= jz ensures 0 <= q[i] <= 3 * (0xff_ffff * 0xff_ffff) {
      DiagSize(x, pi, jv + i);
      assert q[..][i] == Diag(x, pi, jv + i);
    }
    var z0 := Distill(q, iq, jz, 3 * (0xff_ffff * 0xff_ffff));
    ghost var eights := ProductDistilled(x, pi, e0, jv, q[..], iq[..], jz, z0);
    var n0, z1; ghost var more;
    n0, z1, more := IntegerPart(z0, q0);
    ghost var s0 := iq[..];
    var n1;
    n1, ih := HighBits(iq, jz, q0, n0, z1);
    HalvedBounds(z1, iq[..], jz, q0, ih);
    ghost var s1 := iq[..];
    n, z := Fold(iq, jz, q0, n1, z1, ih);
    DigitsBelow(iq[..], jz, q0);
    assert Product(x, pi, e0, jv + jz + 1) == Signed(8 * (eights + more) + n, ih, Fraction(z, iq[..], jz, q0));
  }

  lemma HalvedBounds(z: real, iq: seq<int>, jz: nat, q0: int, ih: int)
    requires 0 < jz <= |iq| && Halved(z, iq, jz, q0, ih)
    ensures 0 <= ih && 0.0 <= Fraction(z, iq, jz, q0) < 1.0
    ensures if ih == 0 then Fraction(z, iq, jz, q0) < 0.5 else Fraction(z, iq, jz, q0) >= 0.5
  {
  }

  /** Adds the products with k more digits of 2/pi. */
  method Extend(x: seq<int>, pi: seq<int>, jv: nat, jz: nat, k: nat, f: array<int>, q: array<int>)
    requires |x| > 0 && |x| + jz + k <= f.Length && jz + k < q.Length && f != q && jv + jz + k < |pi|
    requires Expanded(x, pi, jv, jz, f[..]) && Multiplied(x, pi, jv, jz, q[..])
    modifies f, q
    ensures Expanded(x, pi, jv, jz + k, f[..]) && Multiplied(x, pi, jv, jz + k, q[..])
  {
    var jx, i := |x| - 1, jz + 1;
    while i <= jz + k
      invariant jz + 1 <= i <= jz + k + 1
      invariant Expanded(x, pi, jv, i - 1, f[..]) && Multiplied(x, pi, jv, i - 1, q[..])
    {
      f[jx + i] := pi[jv + i];
      assert Expanded(x, pi, jv, i, f[..]);
      var fw := ProductTerm(x, pi, jv, i, f, i);
      q[i] := fw;
      i := i + 1;
    }
  }

  /** Whether the digits jk to jz - 1 are all zero. */
  method NoFraction(iq: array<int>, jk: nat, jz: nat) returns (none: bool)
    requires jk <= jz <= iq.Length
    ensures none <==> forall i :: jk <= i < jz ==> iq[i] == 0
  {
    none := true;
    var i := jz;
    while i > jk
      invariant jk <= i <= jz
      invariant none <==> forall k :: i <= k < jz ==> iq[k] == 0
    {
      i := i - 1;
      none := none && iq[i] == 0;
    }
  }

  // ---------- When the computation succeeds ----------

  /** How far a number is from a whole one. */
  ghost function Distance(p: real): real {
    var f := p - p.Floor as real;
    if f < 0.5 then f else 1.0 - f
  }

  lemma DistanceIs(p: real, whole: int, ih: int, v: real)
    requires 0.0 <= v <= 0.5 && p == Signed(whole, ih, v)
    ensures v == Distance(p)
  {
    if ih == 0 || v == 0.0 {
      assert p.Floor == whole;
    } else {
      assert p.Floor == whole - 1;
    }
  }

  lemma ReducedDistance(x: seq<int>, pi: seq<int>, e0: int, terms: nat, n: int, ih: int, v: real)
    requires Reduced(x, pi, e0, terms, n, ih, v)
    ensures v == Distance(Product(x, pi, e0, terms))
  {
    hide Product, Distance, Signed;
    var eights: int :| Product(x, pi, e0, terms) == Signed(8 * eights + n, ih, v);
    DistanceIs(Product(x, pi, e0, terms), 8 * eights + n, ih, v);
  }

  lemma {:induction false} ValTopZero(s: seq<int>, n: nat, m: nat)
    requires m <= n <= |s| && (forall i :: m <= i < n ==> s[i] == 0)
    ensures Val(s, n) == Val(s, m)
    decreases n
  {
    if m < n {
      ValTopZero(s, n - 1, m);
    }
  }

  lemma {:induction false} PowBMono(m: nat, n: nat)
    requires m <= n
    ensures PowB(m) <= PowB(n)
    decreases n
  {
    if m < n {
      PowBMono(m, n - 1);
    }
  }

  lemma {:induction false} ValTopNonZero(s: seq<int>, n: nat, m: nat, i: nat)
    requires m <= i < n <= |s| && Digits(s[..n]) && s[i] != 0
    ensures Val(s, n) >= PowB(m)
    decreases n
  {
    assert forall j :: 0 <= j < n ==> IsDigit(s[..n][j]);
    assert IsDigit(s[..n][n - 1]);
    assert s[..n - 1] == s[..n][..n - 1];
    if i == n - 1 {
      ValBounds(s, n - 1);
      PowBMono(m, i);
      MulMono(1, s[i], PowB(i));
    } else {
      ValTopNonZero(s, n - 1, m, i);
      MulMono(0, s[n - 1], PowB(n - 1));
    }
  }

  /** z and the digits from m on are zero exactly if the number is below the weight of digit m. */
  lemma TopZeros(z: real, iq: seq<int>, jz: nat, q0: int, m: nat)
    requires m <= jz <= |iq| && Digits(iq[..jz]) && 0.0 <= z
    requires (q0 >= 0 ==> z == 0.0) && (q0 <= 0 ==> Multiple(z, Pow2(q0)))
    ensures (z == 0.0 && forall i :: m <= i < jz ==> iq[i] == 0) <==> Fraction(z, iq, jz, q0) < Pow2(q0 - 24 * (jz - m))
  {
    hide Pow2, Times, Val, PowB, Multiple, Digits;
    var a := q0 - 24 * (jz - m);
    assert a - 24 * m == q0 - 24 * jz;
    PowBScale(a, m);
    DigitsBelow(iq, jz, q0);
    if z == 0.0 && forall i :: m <= i < jz ==> iq[i] == 0 {
      ValTopZero(iq, jz, m);
      DigitsPrefix(iq, jz, m);
      DigitsBelow(iq, m, a);
    } else if z != 0.0 {
      UnitAtLeast(z, q0);
      Pow2Mono(a, q0);
    } else {
      var i :| m <= i < jz && iq[i] != 0;
      ValTopNonZero(iq, jz, m, i);
      TimesMono(Val(iq, jz) as real, PowB(m) as real, Pow2(q0 - 24 * jz));
    }
  }

  lemma DigitsPrefix(s: seq<int>, n: nat, m: nat)
    requires m <= n <= |s| && Digits(s[..n])
    ensures Digits(s[..m])
  {
    forall i | 0 <= i < m ensures IsDigit(s[..m][i]) {
      assert s[..n][i] == s[..m][i];
    }
  }

  lemma UnitAtLeast(z: real, q0: int)
    requires 0.0 < z && q0 < 0 && Multiple(z, Pow2(q0))
    ensures z >= Pow2(q0)
  {
    hide Pow2;
    var m := UnitsOf(z, q0);
    CompareUnits(1, m, Pow2(q0));
    TimesIs(1.0, Pow2(q0));
  }

  /** z is one digit exactly if the number is below the weight of the digit after the next. */
  lemma TopFits(z: real, iq: seq<int>, jz: nat, q0: int)
    requires jz <= |iq| && Digits(iq[..jz]) && 0.0 <= z
    requires (q0 >= 0 ==> z == 0.0) && (q0 <= 0 ==> Multiple(z, Pow2(q0)))
    ensures OneDigit(z, q0) <==> Fraction(z, iq, jz, q0) < Pow2(q0 + 24)
  {
    hide Pow2, Times, Val, Multiple, Digits;
    DigitsBelow(iq, jz, q0);
    if z == 0.0 {
      NoDigit(q0);
      Pow2Mono(q0, q0 + 24);
    } else {
      var m := UnitsOf(z, q0);
      CompareUnits(m, 0x100_0000, Pow2(q0));
      CompareUnits(0x100_0000, m, Pow2(q0));
      Pow2B(q0);
      TimesIs(16777216.0, Pow2(q0));
    }
  }

  lemma {:induction false} Pow2Mono(a: int, b: int)
    requires a <= b
    ensures Pow2(a) <= Pow2(b)
    decreases b - a
  {
    hide Pow2;
    if a < b {
      Pow2Mono(a, b - 1);
      Pow2Step(b - 1);
    }
  }

  /** The number of further digits that a number v below the weights of the first d needs to show, from k on; more than
      jk if it shows in none. */
  ghost function Lead(v: real, start: int, d: nat, k: nat, jk: nat): nat
    decreases jk + 1 - k
  {
    if k > jk || v >= Pow2(start - 24 * (d + k)) then k else Lead(v, start, d, k + 1, jk)
  }

  /** The computation, having jz + 1 products, comes to an end within the arrays and the table: the truncated product is
      far enough from a whole number to show in the digits asked for, or with as many further products as it is short of
      that; and what shows above the digits of a full array fits in one. */
  ghost predicate Succeeds(x: seq<int>, pi: seq<int>, e0: int, jk: nat, jz: nat)
    requires jk <= jz < 20
    decreases 20 - jz
  {
    var jv := Skipped(e0);
    var start, v := e0 - 24 * (jv + 1), Distance(Product(x, pi, e0, jv + jz + 1));
    && (jz + 1 == 20 ==> v < Pow2(start + 24))
    && (|| v >= Pow2(start - 24 * (jz - jk))
        || (var k := Lead(v, start, jz - jk, 1, jk);
            0 < k <= jk && jz + k < 20 && |x| + jz + k <= 20 && jv + jz + k < |pi| && Succeeds(x, pi, e0, jk, jz + k)))
  }

  lemma {:induction false} LeadBounds(v: real, start: int, d: nat, k: nat, jk: nat, j: nat)
    requires k <= j <= jk && v >= Pow2(start - 24 * (d + j))
    ensures k <= Lead(v, start, d, k, jk) <= j
    decreases j - k
  {
    hide Pow2;
    if v < Pow2(start - 24 * (d + k)) {
      LeadBounds(v, start, d, k + 1, jk, j);
    }
  }

  /** The product truncated after i + 1 terms is no nearer to a whole number than the weight of the k-th digit. */
  ghost predicate ApartAt(x: seq<int>, pi: seq<int>, e0: int, i: nat, k: nat) {
    Distance(Product(x, pi, e0, Skipped(e0) + i + 1)) >= Pow2(e0 - 24 * (Skipped(e0) + 1) - 24 * k)
  }

  /** It does if no truncated product is nearer to a whole number than the weight of the k-th digit, and arrays and
      table have room for k further products. */
  lemma {:induction false} SucceedsWhenApart(x: seq<int>, pi: seq<int>, e0: int, jk: nat, jz: nat, k: nat)
    requires jk <= jz <= jk + k && k <= jk && jk + k + 1 < 20 && |x| + jk + k <= 20 && Skipped(e0) + jk + k < |pi|
    requires forall i :: jk <= i <= jk + k ==> ApartAt(x, pi, e0, i, k)
    ensures Succeeds(x, pi, e0, jk, jz)
    decreases jk + k - jz
  {
    hide Pow2, Distance, Product, Lead;
    var start, v := e0 - 24 * (Skipped(e0) + 1), Distance(Product(x, pi, e0, Skipped(e0) + jz + 1));
    assert ApartAt(x, pi, e0, jz, k);
    if v < Pow2(start - 24 * (jz - jk)) {
      var d := jz - jk;
      assert d < k;
      assert start - 24 * (d + (k - d)) == start - 24 * k;
      LeadBounds(v, start, d, 1, jk, k - d);
      var l := Lead(v, start, d, 1, jk);
      assert jz + l <= jk + k;
      SucceedsWhenApart(x, pi, e0, jk, jz + l, k);
    }
  }

  /** How many of the digits from jk down are zero, and one more. */
  method CountTerms(iq: array<int>, jk: nat, jz: nat, start: int, ghost v: real, ghost z: real) returns (k: nat)
    requires jk <= jz <= iq.Length && Digits(iq[..jz]) && z == 0.0 && start <= 2
    requires start <= 0 ==> Multiple(z, Pow2(start))
    requires v == Fraction(z, iq[..], jz, start) && (forall i :: jk <= i < jz ==> iq[i] == 0)
    ensures k == Lead(v, start, jz - jk, 1, jk) && k > 0
  {
    hide Pow2, Times, Val, Digits, Multiple, Fraction;
    k := 1;
    while k <= jk && iq[jk - k] == 0
      invariant 1 <= k <= jk + 1
      invariant forall i :: jk - k + 1 <= i < jz ==> iq[i] == 0
      invariant Lead(v, start, jz - jk, 1, jk) == Lead(v, start, jz - jk, k, jk)
    {
      TopZeros(z, iq[..], jz, start, jk - k);
      assert jz - (jk - k) == jz - jk + k;
      k := k + 1;
    }
    if k <= jk {
      TopZeros(z, iq[..], jz, start, jk - k);
      assert jz - (jk - k) == jz - jk + k;
    }
  }

  /** The quadrant n, the digits iq[..jz + 1] of the fraction, and in ih whether the fraction is to be taken
      from the next quadrant.  Not ok exactly when the computation would run out of the arrays or of the table. */
  method Kernel(x: seq<int>, e0: int, jk: nat, pi: seq<int>)
    returns (ok: bool, n: int, ih: int, iq: array<int>, jz: nat, q0: int, ghost terms: nat)
    requires 0 < |x| <= 3 && Digits(x) && Digits(pi) && jk > 0
    ensures fresh(iq)
    ensures ok ==> 0 <= n < 8 && jz < iq.Length && iq[jz] != 0
    ensures ok ==> Reduced(x, pi, e0, terms, n, ih, DigitsValue(iq[..], jz, q0))
    ensures ok ==> terms > Skipped(e0) + jk
    ensures ok && -24 <= e0 ==> Digits(iq[..jz + 1])
    ensures ok <==> |x| + jk <= 20 && Skipped(e0) + jk < |pi| && Succeeds(x, pi, e0, jk, jk)
  {
    hide Pow2, Times, Diag, Horner, Val, Product, PowB, Multiple, Fraction, Reduced, Digits, Distance, Lead;
    iq := new int[20];
    var f, q := new int[20], new int[20];
    ok, n, ih, jz, q0, terms := false, 0, 0, 0, 0, 0;
    var jv := Skipped(e0);
    var start := e0 - 24 * (jv + 1);
    if |x| - 1 + jk >= 20 || jv + jk >= |pi| {
      return;
    }
    SetUp(x, pi, jv, jk, f, q);
    jz := jk;
    var z;
    while true
      invariant fresh(f) && fresh(q) && fresh(iq) && f != q && q != iq && f != iq
      invariant f.Length == q.Length == iq.Length == 20 && jk <= jz < 20
      invariant Expanded(x, pi, jv, jz, f[..]) && Multiplied(x, pi, jv, jz, q[..])
      invariant Succeeds(x, pi, e0, jk, jk) == Succeeds(x, pi, e0, jk, jz)
      decreases 20 - jz
    {
      n, ih, z := Pass(x, pi, e0, q, iq, jz);
      terms := jv + jz + 1;
      ghost var v := Fraction(z, iq[..], jz, start);
      ReducedDistance(x, pi, e0, terms, n, ih, v);
      TopZeros(z, iq[..], jz, start, jk);
      TopFits(z, iq[..], jz, start);
      if z != 0.0 {
        if jz + 1 == 20 && !OneDigit(z, start) {
          return;
        }
        break;
      }
      NoDigit(start);
      var none := NoFraction(iq, jk, jz);
      if !none {
        break;
      }
      var k := CountTerms(iq, jk, jz, start, v, z);
      if k > jk || |x| + jz + k > 20 || jv + jz + k >= |pi| {
        return;
      }
      Extend(x, pi, jv, jz, k, f, q);
      jz := jz + k;
    }
    ghost var v := Fraction(z, iq[..], jz, start);
    jz, q0 := Chop(iq, jz, start, z);
    ReducedModulo(x, pi, e0, terms, n, ih, v);
    ok, n := true, n % 8;
  }

  lemma ReducedModulo(x: seq<int>, pi: seq<int>, e0: int, terms: nat, n: int, ih: int, v: real)
    requires Reduced(x, pi, e0, terms, n, ih, v)
    ensures Reduced(x, pi, e0, terms, n % 8, ih, v)
  {
    hide Product;
    var eights: int :| Product(x, pi, e0, terms) == Signed(8 * eights + n, ih, v);
    assert 8 * eights + n == 8 * (eights + n / 8) + n % 8;
    assert Product(x, pi, e0, terms) == Signed(8 * (eights + n / 8) + n % 8, ih, v);
  }

  // ---------- The digits of the argument ----------

  /** What the digits of x stand for, the first one having weight one. */
  ghost function ArgumentValue(x: seq<int>, n: nat): real
    requires n <= |x|
  {
    if n == 0 then 0.0 else ArgumentValue(x, n - 1) + Times(x[n - 1] as real, Pow2(-24 * (n - 1)))
  }

  lemma ArgumentValue3(x: seq<int>)
    requires |x| == 3
    ensures ArgumentValue(x, 1) == x[0] as real
    ensures ArgumentValue(x, 2) == x[0] as real + x[1] as real / 16777216.0
    ensures ArgumentValue(x, 3) == x[0] as real + x[1] as real / 16777216.0 + x[2] as real / 281474976710656.0
  {
    Pow2B(-24);
    Pow2B(-48);
    SmallPowers();
    hide Pow2, Times;
    TimesIs(x[0] as real, Pow2(0));
    TimesIs(x[1] as real, Pow2(-24));
    TimesIs(x[2] as real, Pow2(-48));
    assert ArgumentValue(x, 0) == 0.0;
    assert ArgumentValue(x, 1) == x[0] as real;
  }

  lemma {:induction false} ArgumentPrefix(x: seq<int>, n: nat, m: nat)
    requires m <= n <= |x|
    ensures ArgumentValue(x[..n], m) == ArgumentValue(x, m)
  {
    if m > 0 {
      ArgumentPrefix(x, n, m - 1);
      assert x[..n][m - 1] == x[m - 1];
    }
  }

  /** Cuts a 53-bit significand, as a number z from 2^23 to 2^24, into 24-bit digits without zeros at the end. */
  method SplitArgument(significand: nat) returns (x: seq<int>)
    requires 0x10_0000_0000_0000 <= significand < 0x20_0000_0000_0000
    ensures 0 < |x| <= 3 && Digits(x) && x[0] >= 0x80_0000 && x[|x| - 1] != 0
    ensures ArgumentValue(x, |x|) == significand as real / 536870912.0
  {
    var z := significand as real / 536870912.0;
    var tx := new int[3];
    ghost var high, middle, rest := significand / 0x2000_0000, significand % 0x2000_0000 / 32, significand % 32;
    SignificandParts(significand, high, middle, rest);
    hide Times, Pow2;
    FloorParts(z, high, (middle * 32 + rest) as real / 536870912.0);
    tx[0] := z.Floor;
    z := (z - tx[0] as real) * 16777216.0;
    FloorParts(z, middle, rest as real / 32.0);
    tx[1] := z.Floor;
    z := (z - tx[1] as real) * 16777216.0;
    FloorParts(z, rest * 524288, 0.0);
    tx[2] := z.Floor;
    ghost var all := tx[..];
    assert all == [high, middle, rest * 524288];
    ArgumentValue3(all);
    var nx := 3;
    while tx[nx - 1] == 0
      invariant 1 <= nx <= 3 && tx[..] == all
      invariant ArgumentValue(all, nx) == ArgumentValue(all, 3)
      decreases nx
    {
      TimesSum(0.0, 0.0, Pow2(-24 * (nx - 1)));
      nx := nx - 1;
    }
    x := tx[..nx];
    assert x == all[..nx];
    ArgumentPrefix(all, nx, nx);
  }

  lemma FloorParts(r: real, whole: int, part: real)
    requires r == whole as real + part && 0.0 <= part < 1.0
    ensures r.Floor == whole
  {
  }

  lemma SignificandParts(m: int, high: int, middle: int, rest: int)
    requires 0x10_0000_0000_0000 <= m < 0x20_0000_0000_0000
    requires high == m / 0x2000_0000 && middle == m % 0x2000_0000 / 32 && rest == m % 32
    ensures m == high * 0x2000_0000 + middle * 32 + rest
    ensures 0x80_0000 <= high < 0x100_0000 && 0 <= middle < 0x100_0000 && 0 <= rest < 32
  {
  }

  // ---------- The whole product ----------

  /** What the first n digits of the table stand for, the number that comes before the binary point being none. */
  ghost function TableValue(pi: seq<int>, n: nat): real
    requires n <= |pi|
  {
    if n == 0 then 0.0 else TableValue(pi, n - 1) + Times(pi[n - 1] as real, Pow2(-24 * n))
  }

  /** The first n products with digit j of the argument, which is taken for one. */
  ghost function Column(pi: seq<int>, e0: int, j: nat, n: nat): real {
    if n == 0 then 0.0 else Column(pi, e0, j, n - 1) + Times(PiDigit(pi, n - 1 - j) as real, Pow2(e0 - 24 * n))
  }

  /** The products of the first m digits of the argument, up to and including diagonal n - 1. */
  ghost function ProductUpTo(x: seq<int>, pi: seq<int>, e0: int, n: nat, m: nat): real
    requires m <= |x|
  {
    if n == 0 then 0.0
    else ProductUpTo(x, pi, e0, n - 1, m) + Times(DiagUpTo(x, pi, n - 1, m) as real, Pow2(e0 - 24 * n))
  }

  lemma {:induction false} ProductAll(x: seq<int>, pi: seq<int>, e0: int, n: nat)
    ensures ProductUpTo(x, pi, e0, n, |x|) == Product(x, pi, e0, n)
  {
    if n > 0 {
      ProductAll(x, pi, e0, n - 1);
    }
  }

  lemma {:induction false} PowerSum(a: int, b: int)
    ensures Pow2(a + b) == Times(Pow2(a), Pow2(b))
    decreases if a < 0 then -a else a
  {
    if a > 0 {
      PowerSum(a - 1, b);
      Pow2Step(a - 1);
      Pow2Step(a - 1 + b);
      TimesScale(2.0, Pow2(a - 1), Pow2(b));
    } else if a < 0 {
      PowerSum(a + 1, b);
      Pow2Step(a);
      Pow2Step(a + b);
      TimesScale(2.0, Pow2(a), Pow2(b));
    } else {
      TimesSum(0.0, 0.0, Pow2(b));
    }
  }

  /** Another digit of the argument adds its column. */
  lemma {:induction false} NextRow(x: seq<int>, pi: seq<int>, e0: int, n: nat, m: nat)
    requires m < |x|
    ensures ProductUpTo(x, pi, e0, n, m + 1) ==
            ProductUpTo(x, pi, e0, n, m) + Times(x[m] as real, Column(pi, e0, m, n))
  {
    hide Times, Pow2;
    if n == 0 {
      TimesNone(x[m] as real);
    } else {
      NextRow(x, pi, e0, n - 1, m);
      var d, w := PiDigit(pi, n - 1 - m), Pow2(e0 - 24 * n);
      var before := DiagUpTo(x, pi, n - 1, m);
      assert DiagUpTo(x, pi, n - 1, m + 1) == before + x[m] * d;
      WeighProduct(before, x[m], d, w);
      TimesBoth(x[m] as real, Column(pi, e0, m, n - 1), Times(d as real, w));
    }
  }

  lemma TimesNone(a: real)
    ensures Times(a, 0.0) == 0.0
  {
  }

  lemma TimesBoth(a: real, b: real, c: real)
    ensures Times(a, b + c) == Times(a, b) + Times(a, c)
  {
  }

  lemma WeighProduct(a: int, b: int, d: int, w: real)
    ensures Times((a + b * d) as real, w) == Times(a as real, w) + Times(b as real, Times(d as real, w))
  {
    var p := (b * d) as real;
    assert p == b as real * d as real;
    assert (a + b * d) as real == a as real + p;
    TimesSum(a as real, p, w);
    TimesAssoc(b as real, d as real, w);
  }

  /** A column of all digits of the table is the table's value at the weight of the argument's digit. */
  lemma {:induction false} ColumnValue(pi: seq<int>, e0: int, j: nat, n: nat)
    ensures Column(pi, e0, j, n) ==
            (if n <= j then 0.0
             else Times(TableValue(pi, if n - j < |pi| then n - j else |pi|), Pow2(e0 - 24 * j)))
  {
    hide Times, Pow2;
    if n > 0 {
      ColumnValue(pi, e0, j, n - 1);
      var u, k := Pow2(e0 - 24 * j), n - j;
      TimesSum(0.0, 0.0, u);
      TimesSum(0.0, 0.0, Pow2(e0 - 24 * n));
      if 0 < k <= |pi| {
        var v := Times(pi[k - 1] as real, Pow2(-24 * k));
        PowerSum(-24 * k, e0 - 24 * j);
        assert -24 * k + (e0 - 24 * j) == e0 - 24 * n;
        TimesAssoc(pi[k - 1] as real, Pow2(-24 * k), u);
        TimesSum(TableValue(pi, k - 1), v, u);
      }
    }
  }

  lemma {:induction false} WholeRows(x: seq<int>, pi: seq<int>, e0: int, n: nat, m: nat)
    requires m <= |x| && n >= |x| + |pi|
    ensures ProductUpTo(x, pi, e0, n, m) == Times(Times(ArgumentValue(x, m), TableValue(pi, |pi|)), Pow2(e0))
  {
    hide Times, Pow2;
    var t, w := TableValue(pi, |pi|), Pow2(e0);
    if m == 0 {
      NoRows(x, pi, e0, n);
      TimesSum(0.0, 0.0, t);
      TimesSum(0.0, 0.0, w);
    } else {
      WholeRows(x, pi, e0, n, m - 1);
      NextRow(x, pi, e0, n, m - 1);
      ColumnValue(pi, e0, m - 1, n);
      var d, u := x[m - 1] as real, Pow2(-24 * (m - 1));
      PowerSum(-24 * (m - 1), e0);
      RowValue(ArgumentValue(x, m - 1), d, u, t, w);
    }
  }

  /** d at weight u, times t at weight w. */
  lemma RowValue(v: real, d: real, u: real, t: real, w: real)
    ensures Times(Times(v + Times(d, u), t), w) == Times(Times(v, t), w) + Times(d, Times(t, Times(u, w)))
  {
    TimesSum(v, Times(d, u), t);
    TimesSum(Times(v, t), Times(Times(d, u), t), w);
    calc {
      Times(Times(Times(d, u), t), w);
      { TimesAssoc(d, u, t); }
      Times(Times(d, Times(u, t)), w);
      { TimesAssoc(d, Times(u, t), w); }
      Times(d, Times(Times(u, t), w));
      { TimesMiddle(u, t, w); }
      Times(d, Times(t, Times(u, w)));
    }
  }

  lemma TimesMiddle(u: real, t: real, w: real)
    ensures Times(Times(u, t), w) == Times(t, Times(u, w))
  {
    TimesSwap(u, t);
    TimesAssoc(t, u, w);
  }

  lemma {:induction false} NoRows(x: seq<int>, pi: seq<int>, e0: int, n: nat)
    ensures ProductUpTo(x, pi, e0, n, 0) == 0.0
  {
    if n > 0 {
      NoRows(x, pi, e0, n - 1);
      TimesSum(0.0, 0.0, Pow2(e0 - 24 * n));
    }
  }

  /** The product with all digits of the table is that of the argument, scaled, and what the table stands for. */
  lemma WholeProduct(x: seq<int>, pi: seq<int>, e0: int, n: nat)
    requires n >= |x| + |pi|
    ensures Product(x, pi, e0, n) == Times(Times(ArgumentValue(x, |x|), TableValue(pi, |pi|)), Pow2(e0))
  {
    ProductAll(x, pi, e0, n);
    WholeRows(x, pi, e0, n, |x|);
  }
}
