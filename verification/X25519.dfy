/**
 Scalar multiplication on Curve25519 (section 5 of RFC 7748) as sdk/windows-cpp/src/x25519.cpp runs
 it: a loop over the 255 scalar bits that postpones each conditional swap to the next iteration.
 It is proved to return what the plain recursive ladder returns. Field operations are exact
 arithmetic modulo 2^255 - 19; inversion is a parameter. Bit masks are written as arithmetic.
 */
module X25519 {
  import opened Division

  type byte = b: int | 0 <= b < 256
  const KEY_BYTES: nat := 32

  type key = k: seq<byte> | |k| == KEY_BYTES witness seq(KEY_BYTES, _ => 0)

  function Pow2(n: nat): (r: nat)
    ensures r > 0
  {
    if n == 0 then 1 else 2 * Pow2(n - 1)
  }

  lemma {:induction false} PowerExceeds(n: nat)
    ensures n >= 20 ==> Pow2(n) >= 0x10_0000
  {
    if n > 20 {
      PowerExceeds(n - 1);
    } else if n == 20 {
      assert Pow2(10) == 1024;
    }
  }

  /** The prime of the field, 2^255 - 19. */
  function Prime(): (p: nat)
    ensures p > 121665
  {
    PowerExceeds(8 * KEY_BYTES - 1);
    Pow2(8 * KEY_BYTES - 1) - 19
  }

  const P: nat := Prime()

  type Fe = x: int | 0 <= x < P

  function Add(a: Fe, b: Fe): Fe { (a + b) % P }
  function Sub(a: Fe, b: Fe): Fe { (a - b) % P }
  function Mul(a: Fe, b: Fe): Fe { (a * b) % P }
  function Sq(a: Fe): Fe { (a * a) % P }

  /** A u-coordinate as a quotient x / z. */
  datatype Point = Point(x: Fe, z: Fe)

  const A24: Fe := 121665

  function Double(p: Point): Point {
    var aa, bb := Sq(Add(p.x, p.z)), Sq(Sub(p.x, p.z));
    var e := Sub(aa, bb);
    Point(Mul(aa, bb), Mul(e, Add(aa, Mul(e, A24))))
  }

  /** Differential addition of p and q, whose difference has u-coordinate u. */
  function Combine(u: Fe, p: Point, q: Point): Point {
    var da, cb := Mul(Sub(q.x, q.z), Add(p.x, p.z)), Mul(Add(q.x, q.z), Sub(p.x, p.z));
    Point(Sq(Add(da, cb)), Mul(u, Sq(Sub(da, cb))))
  }

  /** The two points of the ladder after reading these bits, most significant first. */
  function Ladder(u: Fe, bits: seq<bool>): (Point, Point) {
    if bits == [] then (Point(1, 0), Point(u, 1))
    else
      var (r0, r1) := Ladder(u, bits[..|bits| - 1]);
      if bits[|bits| - 1] then (Combine(u, r0, r1), Double(r1)) else (Double(r0), Combine(u, r0, r1))
  }

  // ----- scalars -----

  /** (k[pos >> 3] >> (pos & 7)) & 1 */
  function Bit(k: key, pos: nat): bool
    requires pos < 256
  {
    k[pos / 8] / Pow2(pos % 8) % 2 == 1
  }

  /** Bits 254 down to low of k. */
  function BitsDownTo(k: key, low: nat): (bits: seq<bool>)
    requires low <= 255
    ensures |bits| == 255 - low
    decreases 255 - low
  {
    if low == 255 then [] else BitsDownTo(k, low + 1) + [Bit(k, low)]
  }

  /** The number a bit string spells. */
  function Scalar(bits: seq<bool>): nat {
    if bits == [] then 0 else 2 * Scalar(bits[..|bits| - 1]) + if bits[|bits| - 1] then 1 else 0
  }

  function Clamped(k: key): key {
    k[0 := k[0] - k[0] % 8][31 := if k[31] % 128 < 64 then k[31] % 128 + 64 else k[31] % 128]
  }

  // ----- coordinates as bytes -----

  function Little(bytes: seq<byte>): nat {
    if bytes == [] then 0 else bytes[0] + 256 * Little(bytes[1..])
  }

  function LittleBytes(n: nat, count: nat): (bytes: seq<byte>)
    ensures |bytes| == count
  {
    if count == 0 then [] else [n % 256] + LittleBytes(n / 256, count - 1)
  }

  /** fe_frombytes after the top bit is cleared. */
  function FromBytes(u: key): Fe {
    Little(u[31 := u[31] % 128]) % P
  }

  /** fe_tobytes. */
  function ToBytes(x: Fe): key {
    LittleBytes(x, 32)
  }

  /** The specification of x25519_scalarmult. */
  function ScalarMult(invert: Fe -> Fe, k: key, u: key): key {
    var r := Ladder(FromBytes(u), BitsDownTo(Clamped(k), 0)).0;
    ToBytes(Mul(r.x, invert(r.z)))
  }

  // ----- the loop -----

  lemma SquareOfComplement(m: nat, d: int)
    requires m > 0
    ensures (m - d) * (m - d) % m == d * d % m
  {
    var q, r := d * d / m, d * d % m;
    assert (m - d) * (m - d) == m * (m - 2 * d) + d * d;
    assert (m - d) * (m - d) == m * (m - 2 * d + q) + r;
    QuotientUnique((m - d) * (m - d), m, m - 2 * d + q, r);
  }

  lemma DifferenceMirrored(a: Fe, b: Fe)
    requires a > b
    ensures Sub(b, a) == P - Sub(a, b)
  {
    QuotientUnique(a - b, P, 0, a - b);
    QuotientUnique(b - a, P, -1, P - (a - b));
  }

  lemma SquareOfDifference(a: Fe, b: Fe)
    ensures Sq(Sub(a, b)) == Sq(Sub(b, a))
  {
    if a > b {
      DifferenceMirrored(a, b);
      SquareOfComplement(P, Sub(a, b));
    } else if a < b {
      DifferenceMirrored(b, a);
      SquareOfComplement(P, Sub(b, a));
    }
  }

  /** Differential addition does not care which of its points comes first. */
  lemma CombineSymmetric(u: Fe, p: Point, q: Point)
    ensures Combine(u, p, q) == Combine(u, q, p)
  {
    var da, cb := Mul(Sub(q.x, q.z), Add(p.x, p.z)), Mul(Add(q.x, q.z), Sub(p.x, p.z));
    assert Mul(Sub(p.x, p.z), Add(q.x, q.z)) == cb;
    assert Mul(Add(p.x, p.z), Sub(q.x, q.z)) == da;
    SquareOfDifference(da, cb);
  }

  method ClampScalar(k: array<byte>)
    requires k.Length == 32
    modifies k
    ensures k[..] == Clamped(old(k[..]))
  {
    k[0] := k[0] - k[0] % 8;
    k[31] := k[31] % 128;
    k[31] := if k[31] < 64 then k[31] + 64 else k[31];
  }

  method Cswap(a: Fe, b: Fe, swap: bool) returns (a': Fe, b': Fe)
    ensures (a', b') == if swap then (b, a) else (a, b)
  {
    a', b' := a, b;
    if swap { a', b' := b, a; }
  }

  /** The field operations of one iteration. */
  method Step(x1: Fe, x2in: Fe, z2in: Fe, x3in: Fe, z3in: Fe) returns (x2: Fe, z2: Fe, x3: Fe, z3: Fe)
    ensures Point(x2, z2) == Double(Point(x2in, z2in))
    ensures Point(x3, z3) == Combine(x1, Point(x2in, z2in), Point(x3in, z3in))
  {
    x2, z2, x3, z3 := x2in, z2in, x3in, z3in;
    var a := Add(x2, z2);
    var aa := Sq(a);
    var b := Sub(x2, z2);
    var bb := Sq(b);
    var e := Sub(aa, bb);
    var c := Add(x3, z3);
    var d := Sub(x3, z3);
    var da := Mul(d, a);
    var cb := Mul(c, b);
    var t0 := Add(da, cb);
    x3 := Sq(t0);
    t0 := Sub(da, cb);
    t0 := Sq(t0);
    z3 := Mul(x1, t0);
    x2 := Mul(aa, bb);
    t0 := Mul(e, A24);
    t0 := Add(aa, t0);
    z2 := Mul(e, t0);
  }

  /** The ladder's two points, given the working pairs and whether their swap is still pending. */
  function Pair(swap: bool, x2: Fe, z2: Fe, x3: Fe, z3: Fe): (Point, Point) {
    if swap then (Point(x3, z3), Point(x2, z2)) else (Point(x2, z2), Point(x3, z3))
  }

  function Next(u: Fe, r: (Point, Point), bit: bool): (Point, Point) {
    if bit then (Combine(u, r.0, r.1), Double(r.1)) else (Double(r.0), Combine(u, r.0, r.1))
  }

  lemma LadderNext(u: Fe, k: key, pos: nat)
    requires pos < 255
    ensures Ladder(u, BitsDownTo(k, pos)) == Next(u, Ladder(u, BitsDownTo(k, pos + 1)), Bit(k, pos))
  {
    var bits := BitsDownTo(k, pos);
    assert bits[..|bits| - 1] == BitsDownTo(k, pos + 1);
  }

  /** One iteration: the pending swap and the new one are made together, and the new one is owed. */
  method Iterate(x1: Fe, pending: bool, kt: bool, x2in: Fe, z2in: Fe, x3in: Fe, z3in: Fe)
    returns (x2: Fe, z2: Fe, x3: Fe, z3: Fe)
    ensures Pair(kt, x2, z2, x3, z3) == Next(x1, Pair(pending, x2in, z2in, x3in, z3in), kt)
  {
    var swap := pending != kt;
    x2, x3 := Cswap(x2in, x3in, swap);
    z2, z3 := Cswap(z2in, z3in, swap);
    CombineSymmetric(x1, Point(x2, z2), Point(x3, z3));
    x2, z2, x3, z3 := Step(x1, x2, z2, x3, z3);
  }

  method X25519ScalarMult(invert: Fe -> Fe, scalar: key, uIn: key) returns (out: key)
    ensures out == ScalarMult(invert, scalar, uIn)
  {
    var k := new byte[32](i requires 0 <= i < 32 => scalar[i]);
    assert k[..] == scalar;
    ClampScalar(k);
    var x1 := FromBytes(uIn);
    var x2, z2, x3, z3 := 1, 0, x1, 1;
    var swap := false;
    var pos := 255;
    while pos > 0
      invariant 0 <= pos <= 255 && k[..] == Clamped(scalar)
      invariant Pair(swap, x2, z2, x3, z3) == Ladder(x1, BitsDownTo(Clamped(scalar), pos))
    {
      pos := pos - 1;
      LadderNext(x1, Clamped(scalar), pos);
      var kt := k[pos / 8] / Pow2(pos % 8) % 2 == 1;
      assert kt == Bit(Clamped(scalar), pos);
      x2, z2, x3, z3 := Iterate(x1, swap, kt, x2, z2, x3, z3);
      swap := kt;
    }
    x2, x3 := Cswap(x2, x3, swap);
    z2, z3 := Cswap(z2, z3, swap);
    z2 := invert(z2);
    x2 := Mul(x2, z2);
    out := ToBytes(x2);
  }

  const BASE: key := seq(32, i => if i == 0 then 9 else 0)

  method X25519Public(invert: Fe -> Fe, scalar: key) returns (pub: key)
    ensures pub == ScalarMult(invert, scalar, BASE)
  {
    pub := X25519ScalarMult(invert, scalar, BASE);
  }

  // ----- what the ladder computes -----

  /** stands(p, n): p is a quotient for the u-coordinate of n times the point with coordinate u. The
      laws say that the doubling and differential addition formulas do what they are for. */
  ghost predicate LadderLaws(u: Fe, stands: (Point, nat) -> bool) {
    && stands(Point(1, 0), 0) && stands(Point(u, 1), 1)
    && (forall p: Point, n: nat :: stands(p, n) ==> stands(Double(p), 2 * n))
    && (forall p: Point, q: Point, n: nat ::
          stands(p, n) && stands(q, n + 1) ==> stands(Combine(u, p, q), 2 * n + 1))
  }

  /** At every iteration the two points stand for n and n + 1 times the input point, n being the
      number spelled by the bits read so far. */
  lemma {:induction false} LadderStands(u: Fe, bits: seq<bool>, stands: (Point, nat) -> bool)
    requires LadderLaws(u, stands)
    ensures stands(Ladder(u, bits).0, Scalar(bits)) && stands(Ladder(u, bits).1, Scalar(bits) + 1)
  {
    if bits != [] {
      var prefix := bits[..|bits| - 1];
      LadderStands(u, prefix, stands);
      assert stands(Double(Ladder(u, prefix).1), 2 * (Scalar(prefix) + 1));
    }
  }

  lemma Regroup(a: int, b: int, c: int, r: int)
    ensures a * (b * c + r) == (a * b) * c + a * r
  {
    assert a * (b * c) == (a * b) * c;
  }

  lemma Monotone(a: nat, x: int, y: int)
    requires x <= y
    ensures a * x <= a * y
  {
  }

  lemma DivideTwice(n: nat, a: nat, b: nat)
    requires a > 0 && b > 0
    ensures a * b > 0 && n / a / b == n / (a * b)
  {
    Monotone(a, 1, b);
    var q, r := n / a, n % a;
    var q', r' := q / b, q % b;
    Regroup(a, b, q', r');
    Monotone(a, r' + 1, b);
    Regroup(a, 1, r', 1);
    Monotone(a, 0, r');
    QuotientUnique(n, a * b, q', a * r' + r);
  }

  lemma {:induction false} Pow2Sum(a: nat, b: nat)
    ensures Pow2(a + b) == Pow2(a) * Pow2(b)
  {
    if a > 0 {
      Pow2Sum(a - 1, b);
      assert Pow2(a + b) == 2 * (Pow2(a - 1) * Pow2(b));
    }
  }

  /** Byte i of a little-endian number. */
  lemma {:induction false} ByteAt(bytes: seq<byte>, i: nat)
    requires i < |bytes|
    ensures Little(bytes) / Pow2(8 * i) % 256 == bytes[i]
  {
    var rest := Little(bytes[1..]);
    if i == 0 {
      QuotientUnique(Little(bytes), 256, rest, bytes[0]);
    } else {
      ByteAt(bytes[1..], i - 1);
      Pow2Sum(8, 8 * (i - 1));
      assert Pow2(8) == 256 by { assert Pow2(4) == 16; }
      DivideTwice(Little(bytes), 256, Pow2(8 * (i - 1)));
      QuotientUnique(Little(bytes), 256, rest, bytes[0]);
    }
  }

  /** Bit pos of the byte string is bit pos of its number. */
  lemma BitAt(k: key, pos: nat)
    requires pos < 256
    ensures Bit(k, pos) <==> Little(k) / Pow2(pos) % 2 == 1
  {
    BitOfByte(Little(k), pos / 8, pos % 8);
    ByteAt(k, pos / 8);
  }

  lemma Pow2Eight()
    ensures Pow2(8) == 256
  {
    assert Pow2(4) == 16;
  }

  lemma ShiftTwice(n: nat, i: nat, j: nat)
    ensures n / Pow2(8 * i + j) == n / Pow2(8 * i) / Pow2(j)
  {
    Pow2Sum(8 * i, j);
    DivideTwice(n, Pow2(8 * i), Pow2(j));
  }

  lemma BitOfLowByte(m: nat, j: nat)
    requires j < 8
    ensures m / Pow2(j) % 2 == m % 256 / Pow2(j) % 2
  {
    LowBit(m, j, 8);
    Pow2Eight();
  }

  lemma BitOfByte(n: nat, i: nat, j: nat)
    requires j < 8
    ensures n / Pow2(8 * i + j) % 2 == n / Pow2(8 * i) % 256 / Pow2(j) % 2
  {
    ShiftTwice(n, i, j);
    BitOfLowByte(n / Pow2(8 * i), j);
  }

  lemma HalfOfRemainder(m: nat, t: nat)
    requires t > 0
    ensures m % (2 * t) / 2 == m / 2 % t && m % (2 * t) % 2 == m % 2
  {
    var q, r := m / 2, m % 2;
    Regroup(2, t, q / t, q % t);
    QuotientUnique(m, 2 * t, q / t, 2 * (q % t) + r);
    QuotientUnique(2 * (q % t) + r, 2, q % t, r);
  }

  /** A low bit of a number is that bit of its remainder. */
  lemma {:induction false} LowBit(m: nat, j: nat, width: nat)
    requires j < width
    ensures m / Pow2(j) % 2 == m % Pow2(width) / Pow2(j) % 2
  {
    HalfOfRemainder(m, Pow2(width - 1));
    if j > 0 {
      LowBit(m / 2, j - 1, width - 1);
      DivideTwice(m, 2, Pow2(j - 1));
      DivideTwice(m % Pow2(width), 2, Pow2(j - 1));
    }
  }

  lemma {:induction false} LittleBound(bytes: seq<byte>)
    requires bytes != [] && bytes[|bytes| - 1] < 128
    ensures Little(bytes) < Pow2(8 * |bytes| - 1)
  {
    assert Pow2(7) == 128 && Pow2(8) == 256 by { assert Pow2(3) == 8 && Pow2(6) == 64; }
    if |bytes| > 1 {
      LittleBound(bytes[1..]);
      Pow2Sum(8, 8 * |bytes[1..]| - 1);
    }
  }

  lemma {:induction false} ScalarFrom(k: key, low: nat)
    requires low <= 255 && k[31] < 128
    ensures Scalar(BitsDownTo(k, low)) == Little(k) / Pow2(low)
    decreases 255 - low
  {
    var n := Little(k);
    if low == 255 {
      LittleBound(k);
      QuotientUnique(n, Pow2(255), 0, n);
    } else {
      ScalarFrom(k, low + 1);
      BitAt(k, low);
      assert BitsDownTo(k, low)[..254 - low] == BitsDownTo(k, low + 1);
      DivideTwice(n, Pow2(low), 2);
    }
  }

  /** The bits read spell the clamped scalar as a little-endian number, which is a multiple of the
      cofactor 8 with bit 254 as its highest. */
  lemma ClampedScalar(k: key)
    ensures var n := Scalar(BitsDownTo(Clamped(k), 0));
            n == Little(Clamped(k)) && n % 8 == 0 && Pow2(254) <= n < Pow2(255)
  {
    var c := Clamped(k);
    ClampedBytes(k);
    ScalarFrom(c, 0);
    WholeNumber(Little(c));
    LittleBound(c);
    TopBit(c);
    LowBitsClear(c);
  }

  lemma ClampedBytes(k: key)
    ensures var c := Clamped(k); c[0] % 8 == 0 && 64 <= c[31] < 128
  {
  }

  lemma WholeNumber(n: nat)
    ensures n / Pow2(0) == n
  {
  }

  lemma LowBitsClear(c: key)
    requires c[0] % 8 == 0
    ensures Little(c) % 8 == 0
  {
    QuotientUnique(Little(c), 8, c[0] / 8 + 32 * Little(c[1..]), 0);
  }

  lemma TopBit(c: key)
    requires 64 <= c[31] < 128
    ensures Little(c) >= Pow2(254)
  {
    var n := Little(c);
    assert Pow2(6) == 64 by { assert Pow2(3) == 8; }
    BitAt(c, 254);
    QuotientUnique(c[31], 64, 1, c[31] - 64);
    if n < Pow2(254) { QuotientUnique(n, Pow2(254), 0, n); }
  }

  // ----- key agreement -----

  lemma {:induction false} LittleInverse(n: nat, count: nat)
    requires n < Pow2(8 * count)
    ensures Little(LittleBytes(n, count)) == n
  {
    if count > 0 {
      assert Pow2(8) == 256 by { assert Pow2(4) == 16; }
      Pow2Sum(8, 8 * (count - 1));
      LittleInverse(n / 256, count - 1);
    }
  }

  lemma BytesSpell(x: Fe)
    ensures Little(ToBytes(x)) == x && x < Pow2(255)
  {
    FieldFits();
    Pow2Sum(1, 255);
    LittleInverse(x, 32);
  }

  lemma BytesInverse(x: Fe)
    ensures FromBytes(ToBytes(x)) == x
  {
    var k := ToBytes(x);
    BytesSpell(x);
    if k[31] >= 128 {
      TopHalf(k);
    }
    assert k[31 := k[31] % 128] == k;
    QuotientUnique(x, P, 0, x);
  }

  lemma TopHalf(k: key)
    requires k[31] >= 128
    ensures Little(k) >= Pow2(255)
  {
    var n := Little(k);
    assert Pow2(7) == 128 by { assert Pow2(3) == 8; }
    BitAt(k, 255);
    QuotientUnique(k[31], 128, 1, k[31] - 128);
    if n < Pow2(255) { QuotientUnique(n, Pow2(255), 0, n); }
  }

  lemma FieldFits()
    ensures P < Pow2(255)
  {
  }

  /** What key agreement rests on: mult(n, u) is the u-coordinate of n times the point with
      coordinate u, the ladder's quotients stand for it, and multiples of multiples commute. */
  ghost predicate CurveLaws(invert: Fe -> Fe, mult: (nat, Fe) -> Fe, stands: Fe -> (Point, nat) -> bool) {
    && (forall u: Fe :: LadderLaws(u, stands(u)))
    && (forall u: Fe, p: Point, n: nat :: stands(u)(p, n) ==> Mul(p.x, invert(p.z)) == mult(n, u))
    && (forall m: nat, n: nat, u: Fe :: mult(m, mult(n, u)) == mult(n, mult(m, u)))
  }

  lemma ScalarMultMeans(invert: Fe -> Fe, mult: (nat, Fe) -> Fe, stands: Fe -> (Point, nat) -> bool, k: key, u: key)
    requires CurveLaws(invert, mult, stands)
    ensures ScalarMult(invert, k, u) == ToBytes(mult(Little(Clamped(k)), FromBytes(u)))
  {
    var x, bits := FromBytes(u), BitsDownTo(Clamped(k), 0);
    ClampedScalar(k);
    LadderStands(x, bits, stands(x));
    assert stands(x)(Ladder(x, bits).0, Scalar(bits));
  }

  /** The envelope's two ends agree: multiplying the other side's public value by the own scalar
      gives both the same shared bytes, for all scalars and any base point. */
  lemma KeyAgreement(invert: Fe -> Fe, mult: (nat, Fe) -> Fe, stands: Fe -> (Point, nat) -> bool,
                     a: key, b: key, base: key)
    requires CurveLaws(invert, mult, stands)
    ensures ScalarMult(invert, a, ScalarMult(invert, b, base)) == ScalarMult(invert, b, ScalarMult(invert, a, base))
  {
    var x, m, n := FromBytes(base), Little(Clamped(a)), Little(Clamped(b));
    ScalarMultMeans(invert, mult, stands, a, base);
    ScalarMultMeans(invert, mult, stands, b, base);
    ScalarMultMeans(invert, mult, stands, a, ScalarMult(invert, b, base));
    ScalarMultMeans(invert, mult, stands, b, ScalarMult(invert, a, base));
    BytesInverse(mult(m, x));
    BytesInverse(mult(n, x));
    assert mult(m, mult(n, x)) == mult(n, mult(m, x));
  }
}
