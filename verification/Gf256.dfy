/** Arithmetic in GF(2^8). The specification is the one in section 4.2 of
    FIPS 197: multiply the two polynomials and reduce by
    x^8 + x^4 + x^3 + x + 1. */
module Gf256 {
  import opened Bytes
  import opened Gf2Poly

  /** x^8 + x^4 + x^3 + x + 1 */
  const MODULUS: nat := 0x11B

  lemma {:induction false} ModulusDegree()
    ensures Top(MODULUS) == 256
  {
    assert Top(4) == 4;
    assert Top(17) == 16;
    assert Top(70) == 64;
  }

  function Add(a: byte, b: byte): (r: byte) {
    ModulusDegree();
    XorBelow(a, b, MODULUS);
    Xor(a, b)
  }

  function GfMul(a: byte, b: byte): (r: byte) {
    ModulusDegree();
    Mod(PolyMul(a, b), MODULUS)
  }

  // ----- field laws, from the polynomial specification -----

  lemma {:induction false} GfMulComm(a: byte, b: byte)
    ensures GfMul(a, b) == GfMul(b, a)
  {
    MulComm(a, b);
  }

  lemma {:induction false} GfMulAssoc(a: byte, b: byte, c: byte)
    ensures GfMul(GfMul(a, b), c) == GfMul(a, GfMul(b, c))
  {
    ModMul(PolyMul(a, b), c, MODULUS);
    ModMul(PolyMul(b, c), a, MODULUS);
    MulAssoc(a, b, c);
  }

  lemma {:induction false} GfMulDistrib(a: byte, b: byte, c: byte)
    ensures GfMul(Add(a, b), c) == Add(GfMul(a, c), GfMul(b, c))
    ensures GfMul(c, Add(a, b)) == Add(GfMul(c, a), GfMul(c, b))
  {
    MulDistrib(a, b, c);
    MulDistribRight(c, a, b);
    ModAdd(PolyMul(a, c), PolyMul(b, c), MODULUS);
    ModAdd(PolyMul(c, a), PolyMul(c, b), MODULUS);
  }

  lemma {:induction false} GfMulOne(a: byte)
    ensures GfMul(a, 1) == a && GfMul(1, a) == a
  {
    ModulusDegree();
    MulOne(a);
    ModSmall(a, MODULUS);
  }

  lemma {:induction false} GfMulZero(a: byte)
    ensures GfMul(a, 0) == 0 && GfMul(0, a) == 0
  {
    ModulusDegree();
    MulZero(a);
    ModSmall(0, MODULUS);
  }

  // ----- inverses -----

  /** Coefficient k of a polynomial. */
  predicate Bit(a: nat, k: nat) {
    if k == 0 then a % 2 == 1 else Bit(a / 2, k - 1)
  }

  lemma {:induction false} BitXor(a: nat, b: nat, k: nat)
    ensures Bit(Xor(a, b), k) == (Bit(a, k) != Bit(b, k))
  {
    XorUnfold(a, b);
    if k > 0 {
      BitXor(a / 2, b / 2, k - 1);
    }
  }

  lemma {:induction false} BitZero(k: nat)
    ensures !Bit(0, k)
  {
    if k > 0 {
      BitZero(k - 1);
    }
  }

  predicate Coef(a: nat, k: int) {
    k >= 0 && Bit(a, k)
  }

  /** Coefficient k of d * q, split off the lowest coefficient of d. */
  lemma {:induction false} CoefMul(d: nat, q: nat, k: int)
    ensures Coef(PolyMul(d, q), k) == ((d % 2 == 1 && Coef(q, k)) != Coef(PolyMul(d / 2, q), k - 1))
  {
    if k >= 0 {
      MulStepLeft(d, q);
      BitXor(if d % 2 == 1 then q else 0, 2 * PolyMul(d / 2, q), k);
      BitZero(k);
    }
  }

  lemma {:induction false} SmallFactorCoef(d: nat, d1: nat, d2: nat, d3: nat, d4: nat, q: nat, k: int)
    requires d1 == d / 2 && d2 == d1 / 2 && d3 == d2 / 2 && d4 == d3 / 2 && d4 < 2
    ensures Coef(PolyMul(d, q), k) ==
      ((d % 2 == 1 && Coef(q, k)) != ((d1 % 2 == 1 && Coef(q, k - 1)) !=
      ((d2 % 2 == 1 && Coef(q, k - 2)) != ((d3 % 2 == 1 && Coef(q, k - 3)) !=
      (d4 == 1 && Coef(q, k - 4))))))
  {
    CoefMul(d, q, k);
    CoefMul(d1, q, k - 1);
    CoefMul(d2, q, k - 2);
    CoefMul(d3, q, k - 3);
    MulOne(q);
    MulZero(q);
    if k >= 4 {
      BitZero(k - 4);
    }
  }

  function Pow2(k: nat): nat {
    if k == 0 then 1 else 2 * Pow2(k - 1)
  }

  lemma {:induction false} CoefAbove(q: nat, k: nat)
    requires q < Pow2(k)
    ensures !Coef(q, k)
  {
    if k > 0 {
      CoefAbove(q / 2, k - 1);
    }
  }

  lemma {:induction false} ModulusCoefs()
    ensures Coef(MODULUS, 0) && Coef(MODULUS, 1) && !Coef(MODULUS, 2) && Coef(MODULUS, 3)
    ensures Coef(MODULUS, 4) && !Coef(MODULUS, 5) && !Coef(MODULUS, 6) && !Coef(MODULUS, 7)
    ensures Coef(MODULUS, 8) && !Coef(MODULUS, 9) && !Coef(MODULUS, 10)
    ensures !Coef(MODULUS, 11) && !Coef(MODULUS, 12)
  {
  }

  /** The modulus has no divisor of degree 1 to 4: its thirteen lowest
      coefficients would have to be those of the product. */
  lemma {:induction false} NoSmallDivisor(d: nat, q: nat)
    requires 2 <= d < 32 && q < 512
    ensures PolyMul(d, q) != MODULUS
  {
    if PolyMul(d, q) == MODULUS {
      ModulusCoefs();
      var d1 := d / 2; var d2 := d1 / 2; var d3 := d2 / 2; var d4 := d3 / 2;
      SmallFactorCoef(d, d1, d2, d3, d4, q, 0);
      SmallFactorCoef(d, d1, d2, d3, d4, q, 1);
      SmallFactorCoef(d, d1, d2, d3, d4, q, 2);
      SmallFactorCoef(d, d1, d2, d3, d4, q, 3);
      SmallFactorCoef(d, d1, d2, d3, d4, q, 4);
      SmallFactorCoef(d, d1, d2, d3, d4, q, 5);
      SmallFactorCoef(d, d1, d2, d3, d4, q, 6);
      SmallFactorCoef(d, d1, d2, d3, d4, q, 7);
      SmallFactorCoef(d, d1, d2, d3, d4, q, 8);
      SmallFactorCoef(d, d1, d2, d3, d4, q, 9); CoefAbove(q, 9);
      SmallFactorCoef(d, d1, d2, d3, d4, q, 10); CoefAbove(q, 10);
      SmallFactorCoef(d, d1, d2, d3, d4, q, 11); CoefAbove(q, 11);
      SmallFactorCoef(d, d1, d2, d3, d4, q, 12); CoefAbove(q, 12);
    }
  }

  function Shift(d: nat, n: nat): (r: nat)
    ensures r >= d
  {
    if n == 0 then d else 2 * Shift(d, n - 1)
  }

  lemma {:induction false} ShiftPow(d: nat, n: nat)
    ensures Shift(d, n) == Pow2(n) * d
  {
    if n > 0 {
      ShiftPow(d, n - 1);
    }
  }

  lemma {:induction false} MulDegree(d: nat, q: nat, n: nat)
    requires d > 0 && q >= Pow2(n)
    ensures PolyMul(d, q) >= Top(Shift(d, n))
  {
    if n == 0 {
      MulKeepsTop(d, q);
    } else {
      MulDegree(d, q / 2, n - 1);
      assert Top(Shift(d, n)) == 2 * Top(Shift(d, n - 1));
      XorKeepsTop(if q % 2 == 1 then d else 0, 2 * PolyMul(d, q / 2), Shift(d, n));
    }
  }

  lemma {:induction false} LongFactors(d: nat, q: nat, n: nat)
    requires d > 0 && q >= Pow2(n) && Pow2(n) * d >= 1024
    ensures PolyMul(d, q) >= 512
  {
    ShiftPow(d, n);
    MulDegree(d, q, n);
  }

  /** The modulus is irreducible: no polynomial of degree 1 to 7 divides it. */
  lemma {:induction false} Irreducible(d: nat, q: nat)
    requires 2 <= d < 256
    ensures PolyMul(d, q) != MODULUS
  {
    assert Pow2(9) == 512 && Pow2(5) == 32;
    MulOne(d);
    MulComm(d, q);
    if q >= 512 {
      LongFactors(d, q, 9);
    } else if d < 32 {
      NoSmallDivisor(d, q);
    } else if 2 <= q < 32 {
      NoSmallDivisor(q, d);
    } else if q >= 32 {
      LongFactors(d, q, 5);
    }
  }

  /** The inverse of a non-zero element: the first step of Euclid's algorithm,
      MODULUS = a * q + r, reduces the search to the smaller remainder r. */
  function Inverse(a: byte): (u: byte)
    requires a != 0
    ensures GfMul(u, a) == 1
  {
    if a == 1 then
      GfMulOne(1);
      1
    else
      var (q, r) := DivMod(MODULUS, a);
      Irreducible(a, q);
      assert r != 0;
      InverseStep(a, q, r, Inverse(r));
      ModulusDegree();
      Mod(PolyMul(Inverse(r), q), MODULUS)
  }

  lemma {:induction false} InverseStep(a: byte, q: nat, r: byte, u: byte)
    requires MODULUS == Xor(PolyMul(a, q), r)
    requires GfMul(u, r) == 1
    ensures Mod(PolyMul(Mod(PolyMul(u, q), MODULUS), a), MODULUS) == 1
  {
    var m := PolyMul(a, q);
    XorCancel(m, r);
    assert r == Xor(m, MODULUS);
    MulDistribRight(u, m, MODULUS);
    ModAdd(PolyMul(u, m), PolyMul(u, MODULUS), MODULUS);
    ModMultiple(MODULUS, u);
    XorComm(Mod(PolyMul(u, m), MODULUS), 0);
    assert Mod(PolyMul(u, m), MODULUS) == 1;
    ModMul(PolyMul(u, q), a, MODULUS);
    MulAssoc(u, q, a);
    MulComm(q, a);
  }

  /** A non-zero element has exactly one inverse. */
  lemma {:induction false} InverseUnique(x: byte, y: byte)
    requires x != 0
    ensures GfMul(x, y) == 1 <==> y == Inverse(x)
  {
    var u := Inverse(x);
    GfMulComm(u, x);
    if GfMul(x, y) == 1 {
      GfMulAssoc(u, x, y);
      GfMulOne(u);
      GfMulOne(y);
    }
  }

  /** Multiplying by c and by the inverse of c undo each other. */
  lemma {:induction false} ScaleRoundTrip(y: byte, c: byte)
    requires c != 0
    ensures GfMul(GfMul(y, c), Inverse(c)) == y
    ensures GfMul(GfMul(y, Inverse(c)), c) == y
  {
    InverseUnique(c, Inverse(c));
    GfMulAssoc(y, c, Inverse(c));
    GfMulAssoc(y, Inverse(c), c);
    GfMulOne(y);
  }

  // ----- the source's loops -----

  method Mul(x: byte, y: byte) returns (result: byte)
    ensures result == GfMul(x, y)
  {
    ModulusDegree();
    XorUnfold(0, PolyMul(x, y));
    var a: byte, b: byte := x, y;
    result := 0;
    while b != 0
      invariant Pending(result, a, b) == GfMul(x, y)
    {
      ghost var a0, b0, result0 := a, b, result;
      if b % 2 == 1 {
        result := Add(result, a);
      }
      var carry := a >= 0x80;
      a := 2 * a % 256;
      if carry {
        a := Add(a, 0x1B);
      }
      XtimeOnEightBits(a0);
      b := b / 2;
      MulLoopStep(a0, b0, result0);
    }
    XorComm(result, 0);
    ModSmall(result, MODULUS);
  }

  /** What the multiplication loop still owes: result + a * b, reduced. */
  ghost function Pending(result: byte, a: byte, b: byte): nat {
    Mod(Xor(result, PolyMul(a, b)), MODULUS)
  }

  lemma {:induction false} XtimeOnEightBits(a: byte)
    ensures Xtime(a) == if a >= 0x80 then Add(2 * a % 256, 0x1B) else 2 * a % 256
  {
    hide Add;
    assert 2 * a % 256 == if a >= 0x80 then 2 * a - 256 else 2 * a;
  }

  /** Multiplication by x, as the source does it on eight bits. */
  function Xtime(a: byte): (r: byte) {
    if a >= 0x80 then Add(2 * a - 256, 0x1B) else 2 * a
  }

  /** One turn of the shift-and-reduce loop keeps result + a * b fixed. */
  lemma {:induction false} MulLoopStep(a: byte, b: byte, result: byte)
    requires b != 0
    ensures Pending(if b % 2 == 1 then Add(result, a) else result, Xtime(a), b / 2) == Pending(result, a, b)
  {
    var rest, a' := PolyMul(a, b / 2), Xtime(a);
    XtimeReduced(a);
    MulDouble(a, b / 2);
    ModMul(2 * a, b / 2, MODULUS);
    ModMul(a', b / 2, MODULUS);
    assert Mod(PolyMul(a', b / 2), MODULUS) == Mod(2 * rest, MODULUS);
    var acc := if b % 2 == 1 then Add(result, a) else result;
    ModAdd(acc, PolyMul(a', b / 2), MODULUS);
    ModAdd(acc, 2 * rest, MODULUS);
    XorAssoc(result, a, 2 * rest);
  }

  lemma {:induction false} XtimeReduced(a: byte)
    ensures Mod(Xtime(a), MODULUS) == Mod(2 * a, MODULUS)
  {
    if a >= 0x80 {
      CarryReduced(a, Xtime(a), 2 * a - 256);
    }
  }

  lemma {:induction false} CarryReduced(a: byte, a': byte, low: byte)
    requires 2 * a == 256 + low && a' == Xor(low, 0x1B)
    ensures Mod(a', MODULUS) == Mod(2 * a, MODULUS)
  {
    DropLeading(low);
    ModAddModulus(256 + low, MODULUS);
  }

  /** Adding the modulus cancels x^8 and adds the constant 0x1B. */
  lemma {:induction false} DropLeading(low: byte)
    ensures Xor(256 + low, MODULUS) == Xor(low, 0x1B)
  {
    Xor256(low);
    Xor256(0x1B);
    XorSwap(256, low, 256, 0x1B);
    XorSelf(256);
  }

  lemma {:induction false} Xor256(low: byte)
    ensures Xor(256, low) == 256 + low
  {
    XorPower(low, 8);
    assert Pow2(8) == 256;
  }

  lemma {:induction false} XorPower(low: nat, k: nat)
    requires low < Pow2(k)
    ensures Xor(Pow2(k), low) == Pow2(k) + low
  {
    if k > 0 {
      XorPower(low / 2, k - 1);
      XorUnfold(Pow2(k), low);
    }
  }

  method Inv(x: byte) returns (r: byte)
    ensures r == if x == 0 then 0 else Inverse(x)
  {
    if x == 0 {
      return 0;
    }
    ghost var u: byte := Inverse(x);
    GfMulZero(x);
    r := 0;
    var candidate := 1;
    while candidate < 256
      invariant 1 <= candidate <= u
    {
      var product := Mul(x, candidate);
      InverseUnique(x, candidate);
      if product == 1 {
        return candidate;
      }
      candidate := candidate + 1;
    }
    assert false;
  }

  // ----- buffers -----

  function AddBuf(a: seq<byte>, b: seq<byte>): (r: seq<byte>)
    requires |a| == |b|
  {
    seq(|a|, i requires 0 <= i < |a| => Add(a[i], b[i]))
  }

  function ScaleBuf(a: seq<byte>, c: byte): (r: seq<byte>) {
    seq(|a|, i requires 0 <= i < |a| => GfMul(a[i], c))
  }

  /** Scaling a buffer by a non-zero coefficient and by its inverse cancel out. */
  lemma {:induction false} ScaleBufRoundTrip(a: seq<byte>, c: byte)
    requires c != 0
    ensures ScaleBuf(ScaleBuf(a, c), Inverse(c)) == a
    ensures ScaleBuf(ScaleBuf(a, Inverse(c)), c) == a
  {
    forall i | 0 <= i < |a|
      ensures GfMul(GfMul(a[i], c), Inverse(c)) == a[i] && GfMul(GfMul(a[i], Inverse(c)), c) == a[i]
    {
      ScaleRoundTrip(a[i], c);
    }
  }

  method ScaleInto(src: array<byte>, n: nat, coeff: byte, dst: array<byte>)
    requires n <= src.Length && n <= dst.Length
    modifies dst
    ensures dst[..n] == ScaleBuf(old(src[..n]), coeff) && dst[n..] == old(dst[n..])
  {
    for i := 0 to n
      invariant forall k :: 0 <= k < i ==> dst[k] == GfMul(old(src[k]), coeff)
      invariant forall k :: i <= k < src.Length ==> src[k] == old(src[k])
      invariant forall k :: n <= k < dst.Length ==> dst[k] == old(dst[k])
    {
      var product := Mul(src[i], coeff);
      dst[i] := product;
    }
  }

  method XorInto(a: array<byte>, b: array<byte>, n: nat, dst: array<byte>)
    requires n <= a.Length && n <= b.Length && n <= dst.Length
    modifies dst
    ensures dst[..n] == AddBuf(old(a[..n]), old(b[..n])) && dst[n..] == old(dst[n..])
  {
    for i := 0 to n
      invariant forall k :: 0 <= k < i ==> dst[k] == Add(old(a[k]), old(b[k]))
      invariant forall k :: i <= k < a.Length ==> a[k] == old(a[k])
      invariant forall k :: i <= k < b.Length ==> b[k] == old(b[k])
      invariant forall k :: n <= k < dst.Length ==> dst[k] == old(dst[k])
    {
      dst[i] := Add(a[i], b[i]);
    }
  }
}
