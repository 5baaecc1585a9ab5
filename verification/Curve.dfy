/**
 What the ladder's two formulas compute, in plain arithmetic modulo the prime of Curve25519: the
 doubling and the differential addition of y^2 = x^3 + 486662 x^2 + x (section 5 of RFC 7748).
 */
module Curve {
  import opened Division
  import opened X25519

  /** a is the representative of n. */
  predicate Stands(a: Fe, n: int) {
    a == n % P
  }

  /** Numbers that differ by a multiple of the prime have one representative. */
  lemma Congruent(m: int, n: int, k: int)
    requires m == n + P * k
    ensures m % P == n % P
  {
    var q, r := n / P, n % P;
    assert m == P * (q + k) + r;
    QuotientUnique(m, P, q + k, r);
  }

  lemma StandsAdd(a: Fe, m: int, b: Fe, n: int)
    requires Stands(a, m) && Stands(b, n)
    ensures Stands(Add(a, b), m + n)
  {
    Congruent(m + n, a + b, m / P + n / P);
  }

  lemma StandsSub(a: Fe, m: int, b: Fe, n: int)
    requires Stands(a, m) && Stands(b, n)
    ensures Stands(Sub(a, b), m - n)
  {
    Congruent(m - n, a - b, m / P - n / P);
  }

  lemma Products(a: int, b: int, j: int, k: int)
    ensures (a + P * j) * (b + P * k) == a * b + P * (a * k + j * b + P * (j * k))
  {
    assert (a + P * j) * (b + P * k) == a * b + a * (P * k) + (P * j) * b + (P * j) * (P * k);
    assert a * (P * k) == P * (a * k) && (P * j) * b == P * (j * b);
    assert (P * j) * (P * k) == P * (P * (j * k));
  }

  lemma StandsMul(a: Fe, m: int, b: Fe, n: int)
    requires Stands(a, m) && Stands(b, n)
    ensures Stands(Mul(a, b), m * n)
  {
    var j, k := m / P, n / P;
    Products(a, b, j, k);
    Congruent(m * n, a * b, a * k + j * b + P * (j * k));
  }

  lemma StandsSq(a: Fe, m: int)
    requires Stands(a, m)
    ensures Stands(Sq(a), m * m)
  {
    StandsMul(a, m, a, m);
  }

  lemma Itself(a: Fe)
    ensures Stands(a, a)
  {
  }

  // ----- doubling -----

  lemma SquaresApart(x: int, z: int)
    ensures ((x + z) * (x + z)) * ((x - z) * (x - z)) == (x * x - z * z) * (x * x - z * z)
    ensures (x + z) * (x + z) - (x - z) * (x - z) == 4 * (x * z)
  {
    assert (x + z) * (x - z) == x * x - z * z;
    var s, d := x + z, x - z;
    assert (s * s) * (d * d) == (s * d) * (s * d);
  }

  lemma DoubledZ(x: int, z: int)
    ensures (4 * (x * z)) * ((x + z) * (x + z) + (4 * (x * z)) * 121665)
         == 4 * (x * z) * (x * x + 486662 * (x * z) + z * z)
  {
    assert (x + z) * (x + z) == x * x + 2 * (x * z) + z * z;
  }

  /** The doubling formula of the curve, with the quotient's numerator and denominator. */
  lemma DoubleMeans(x: Fe, z: Fe)
    ensures Double(Point(x, z)).x == (x * x - z * z) * (x * x - z * z) % P
    ensures Double(Point(x, z)).z == 4 * (x * z) * (x * x + 486662 * (x * z) + z * z) % P
  {
    var m: int, n: int := x, z;
    Itself(x);
    Itself(z);
    var a, b := Add(x, z), Sub(x, z);
    StandsAdd(x, m, z, n);
    StandsSub(x, m, z, n);
    var aa, bb := Sq(a), Sq(b);
    StandsSq(a, m + n);
    StandsSq(b, m - n);
    var e := Sub(aa, bb);
    StandsSub(aa, (m + n) * (m + n), bb, (m - n) * (m - n));
    SquaresApart(m, n);
    StandsMul(aa, (m + n) * (m + n), bb, (m - n) * (m - n));
    Itself(A24);
    StandsMul(e, 4 * (m * n), A24, A24);
    StandsAdd(aa, (m + n) * (m + n), Mul(e, A24), (4 * (m * n)) * A24);
    StandsMul(e, 4 * (m * n), Add(aa, Mul(e, A24)), (m + n) * (m + n) + (4 * (m * n)) * A24);
    DoubledZ(m, n);
  }

  // ----- differential addition -----

  lemma CrossSum(x2: int, z2: int, x3: int, z3: int)
    ensures (x3 - z3) * (x2 + z2) + (x3 + z3) * (x2 - z2) == 2 * (x2 * x3 - z2 * z3)
    ensures (x3 - z3) * (x2 + z2) - (x3 + z3) * (x2 - z2) == -2 * (x2 * z3 - z2 * x3)
  {
  }

  lemma TwiceSquared(n: int)
    ensures (2 * n) * (2 * n) == 4 * (n * n) && (-2 * n) * (-2 * n) == 4 * (n * n)
  {
  }

  /** The differential addition formula of the curve, u being the coordinate of the difference. */
  lemma CombineMeans(u: Fe, x2: Fe, z2: Fe, x3: Fe, z3: Fe)
    ensures var s, d := x2 * x3 - z2 * z3, x2 * z3 - z2 * x3;
      && Combine(u, Point(x2, z2), Point(x3, z3)).x == 4 * (s * s) % P
      && Combine(u, Point(x2, z2), Point(x3, z3)).z == u * (4 * (d * d)) % P
  {
    var a: int, b: int, c: int, d: int := x2, z2, x3, z3;
    Itself(x2);
    Itself(z2);
    Itself(x3);
    Itself(z3);
    Itself(u);
    var plus, minus := Add(x2, z2), Sub(x2, z2);
    var plus', minus' := Add(x3, z3), Sub(x3, z3);
    StandsAdd(x2, a, z2, b);
    StandsSub(x2, a, z2, b);
    StandsAdd(x3, c, z3, d);
    StandsSub(x3, c, z3, d);
    var da, cb := Mul(minus', plus), Mul(plus', minus);
    StandsMul(minus', c - d, plus, a + b);
    StandsMul(plus', c + d, minus, a - b);
    CrossSum(a, b, c, d);
    var s, t := a * c - b * d, a * d - b * c;
    StandsAdd(da, (c - d) * (a + b), cb, (c + d) * (a - b));
    StandsSub(da, (c - d) * (a + b), cb, (c + d) * (a - b));
    StandsSq(Add(da, cb), 2 * s);
    StandsSq(Sub(da, cb), -2 * t);
    TwiceSquared(s);
    TwiceSquared(t);
    StandsMul(u, u, Sq(Sub(da, cb)), 4 * (t * t));
  }

  // ----- constants and bytes -----

  lemma Doubled(n: nat, value: nat)
    requires Pow2(n) == value
    ensures Pow2(2 * n) == value * value
  {
    Pow2Sum(n, n);
  }

  /** The prime is 2^255 - 19. */
  lemma PrimeIs()
    ensures P == 0x7fff_ffff_ffff_ffff_ffff_ffff_ffff_ffff_ffff_ffff_ffff_ffff_ffff_ffff_ffff_ffed
  {
    assert Pow2(3) == 8 && Pow2(7) == 128 && Pow2(11) == 0x800;
    assert Pow2(15) == 0x8000;
    Doubled(15, 0x8000);
    Doubled(30, 0x4000_0000);
    Doubled(60, 0x1000_0000_0000_0000);
    Doubled(120, 0x100_0000_0000_0000_0000_0000_0000_0000);
    Pow2Sum(240, 15);
  }

  lemma {:induction false} ZerosSpellNothing(bytes: seq<byte>)
    requires forall i :: 0 <= i < |bytes| ==> bytes[i] == 0
    ensures Little(bytes) == 0
  {
    if bytes != [] {
      ZerosSpellNothing(bytes[1..]);
    }
  }

  lemma {:induction false} NothingSpellsZeros(count: nat)
    ensures forall i :: 0 <= i < count ==> LittleBytes(0, count)[i] == 0
  {
    if count > 0 {
      NothingSpellsZeros(count - 1);
    }
  }

  /** The base point has u-coordinate 9, least significant byte first. */
  lemma BaseSpellsNine()
    ensures Little(BASE) == 9 && FromBytes(BASE) == 9 && ToBytes(9) == BASE && BASE[0] == 9
  {
    ZerosSpellNothing(BASE[1..]);
    assert BASE[31 := BASE[31] % 128] == BASE;
    NothingSpellsZeros(31);
    assert ToBytes(9) == [9] + LittleBytes(0, 31);
  }

  /** Clamping clears the low three bits and the top bit, sets bit 254, and changes nothing else. */
  lemma ClampingKeepsTheRest(k: key)
    ensures var c := Clamped(k);
      && c[0] / 8 == k[0] / 8 && c[0] % 8 == 0
      && c[31] % 64 == k[31] % 64 && 64 <= c[31] < 128
      && forall i :: 0 < i < 31 ==> c[i] == k[i]
  {
  }

  /** The top bit of a received coordinate is ignored; the rest is read least significant byte first. */
  lemma TopBitIgnored(u: key)
    ensures FromBytes(u) == FromBytes(u[31 := u[31] % 128])
    ensures u[31] < 128 ==> FromBytes(u) == Little(u) % P
  {
    var v := u[31 := u[31] % 128];
    assert v[31 := v[31] % 128] == v;
    assert u[31] < 128 ==> v == u;
  }
}
