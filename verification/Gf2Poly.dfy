/** Polynomials over GF(2), written as natural numbers: bit i of the number is
    the coefficient of x^i. Addition is exclusive-or, multiplication is the
    carry-less product, and division by a non-zero polynomial leaves a
    remainder of smaller degree. */
module Gf2Poly {

  // ----- addition -----

  function Xor(a: nat, b: nat): nat {
    if a == 0 then b
    else if b == 0 then a
    else (if a % 2 == b % 2 then 0 else 1) + 2 * Xor(a / 2, b / 2)
  }

  lemma {:induction false} XorUnfold(a: nat, b: nat)
    ensures Xor(a, b) == (if a % 2 == b % 2 then 0 else 1) + 2 * Xor(a / 2, b / 2)
    ensures Xor(a, b) % 2 == (if a % 2 == b % 2 then 0 else 1)
    ensures Xor(a, b) / 2 == Xor(a / 2, b / 2)
  {
    if a == 0 {
      assert Xor(a / 2, b / 2) == b / 2;
    } else if b == 0 {
      assert Xor(a / 2, b / 2) == a / 2;
    }
  }

  lemma {:induction false} XorDouble(a: nat, b: nat)
    ensures Xor(2 * a, 2 * b) == 2 * Xor(a, b)
  {
  }

  lemma {:induction false} XorLow(low: nat, h: nat)
    requires low < 2
    ensures Xor(low, 2 * h) == low + 2 * h
  {
  }

  lemma {:induction false} XorComm(a: nat, b: nat)
    ensures Xor(a, b) == Xor(b, a)
  {
    if a != 0 && b != 0 {
      XorComm(a / 2, b / 2);
    }
  }

  lemma {:induction false} XorAssoc(a: nat, b: nat, c: nat)
    ensures Xor(Xor(a, b), c) == Xor(a, Xor(b, c))
  {
    if a != 0 && b != 0 && c != 0 {
      var ab, bc := Xor(a, b), Xor(b, c);
      XorUnfold(a, b);
      XorUnfold(b, c);
      XorUnfold(ab, c);
      XorUnfold(a, bc);
      XorAssoc(a / 2, b / 2, c / 2);
      assert Xor(ab, c) % 2 == Xor(a, bc) % 2;
      assert Xor(ab, c) / 2 == Xor(a, bc) / 2;
    }
  }

  lemma {:induction false} XorSelf(a: nat)
    ensures Xor(a, a) == 0
  {
    if a != 0 {
      XorSelf(a / 2);
    }
  }

  /** Adding the same polynomial twice cancels it. */
  lemma {:induction false} XorCancel(a: nat, b: nat)
    ensures Xor(a, Xor(a, b)) == b
    ensures Xor(Xor(b, a), a) == b
    ensures Xor(Xor(a, b), a) == b
    ensures Xor(a, Xor(b, a)) == b
  {
    XorSelf(a);
    XorAssoc(a, a, b);
    XorAssoc(b, a, a);
    XorComm(a, b);
  }

  /** (a + b) + (c + d) = (a + c) + (b + d) */
  lemma {:induction false} XorSwap(a: nat, b: nat, c: nat, d: nat)
    ensures Xor(Xor(a, b), Xor(c, d)) == Xor(Xor(a, c), Xor(b, d))
  {
    XorAssoc(a, b, Xor(c, d));
    XorAssoc(b, c, d);
    XorComm(b, c);
    XorAssoc(c, b, d);
    XorAssoc(a, c, Xor(b, d));
  }

  // ----- degree -----

  /** The leading monomial of a non-zero polynomial, as a power of two. */
  function Top(d: nat): (t: nat)
    requires d > 0
    ensures t <= d < 2 * t
  {
    if d == 1 then 1 else 2 * Top(d / 2)
  }

  lemma {:induction false} XorBelow(x: nat, y: nat, d: nat)
    requires d > 0 && x < Top(d) && y < Top(d)
    ensures Xor(x, y) < Top(d)
  {
    if x != 0 && y != 0 {
      XorBelow(x / 2, y / 2, d / 2);
    }
  }

  lemma {:induction false} XorKeepsTop(x: nat, y: nat, d: nat)
    requires d > 0 && x < Top(d) <= y
    ensures Xor(x, y) >= Top(d)
  {
    if x != 0 {
      XorKeepsTop(x / 2, y / 2, d / 2);
    }
  }

  lemma {:induction false} XorDropsTop(s: nat, d: nat)
    requires d > 0 && Top(d) <= s < 2 * Top(d)
    ensures Xor(s, d) < Top(d)
  {
    if d > 1 {
      XorDropsTop(s / 2, d / 2);
    }
  }

  // ----- multiplication -----

  function PolyMul(a: nat, b: nat): nat {
    if b == 0 then 0
    else Xor(if b % 2 == 1 then a else 0, 2 * PolyMul(a, b / 2))
  }

  lemma {:induction false} MulZero(b: nat)
    ensures PolyMul(0, b) == 0
  {
    if b != 0 {
      MulZero(b / 2);
    }
  }

  lemma {:induction false} MulDouble(a: nat, b: nat)
    ensures PolyMul(2 * a, b) == 2 * PolyMul(a, b)
    ensures PolyMul(a, 2 * b) == 2 * PolyMul(a, b)
  {
    if b != 0 {
      MulDouble(a, b / 2);
      XorDouble(if b % 2 == 1 then a else 0, PolyMul(2 * a, b / 2));
      assert PolyMul(a, 2 * b) == Xor(0, 2 * PolyMul(a, b));
    }
  }

  lemma {:induction false} MulDistrib(a: nat, c: nat, b: nat)
    ensures PolyMul(Xor(a, c), b) == Xor(PolyMul(a, b), PolyMul(c, b))
  {
    if b != 0 {
      MulDistrib(a, c, b / 2);
      var p, q := PolyMul(a, b / 2), PolyMul(c, b / 2);
      XorDouble(p, q);
      if b % 2 == 1 {
        XorSwap(a, 2 * p, c, 2 * q);
      }
    }
  }

  /** The schoolbook product may equally be driven by the first factor. */
  lemma {:induction false} MulStepLeft(a: nat, b: nat)
    ensures PolyMul(a, b) == Xor(if a % 2 == 1 then b else 0, 2 * PolyMul(a / 2, b))
  {
    var low := a % 2;
    XorLow(low, a / 2);
    MulDistrib(low, 2 * (a / 2), b);
    MulDouble(a / 2, b);
    if low == 1 {
      MulOne(b);
    } else {
      MulZero(b);
    }
  }

  lemma {:induction false} MulOne(b: nat)
    ensures PolyMul(1, b) == b
    ensures PolyMul(b, 1) == b
  {
    if b != 0 {
      MulOne(b / 2);
      XorLow(b % 2, b / 2);
      assert PolyMul(b, 1) == Xor(b, 0);
    }
  }

  lemma {:induction false} MulComm(a: nat, b: nat)
    ensures PolyMul(a, b) == PolyMul(b, a)
  {
    if b == 0 {
      MulZero(a);
    } else {
      MulComm(a, b / 2);
      MulStepLeft(b, a);
    }
  }

  lemma {:induction false} MulDistribRight(a: nat, b: nat, c: nat)
    ensures PolyMul(a, Xor(b, c)) == Xor(PolyMul(a, b), PolyMul(a, c))
  {
    MulComm(a, Xor(b, c));
    MulDistrib(b, c, a);
    MulComm(a, b);
    MulComm(a, c);
  }

  lemma {:induction false} MulAssoc(a: nat, b: nat, c: nat)
    ensures PolyMul(PolyMul(a, b), c) == PolyMul(a, PolyMul(b, c))
  {
    if c != 0 {
      var half := PolyMul(b, c / 2);
      MulAssoc(a, b, c / 2);
      MulDouble(a, half);
      MulDistribRight(a, if c % 2 == 1 then b else 0, 2 * half);
    }
  }

  /** Degrees add up: a product is at least as long as either factor. */
  lemma {:induction false} MulKeepsTop(d: nat, q: nat)
    requires d > 0 && q > 0
    ensures PolyMul(d, q) >= Top(d)
  {
    if q > 1 {
      MulKeepsTop(d, q / 2);
      assert Top(2 * d) == 2 * Top(d);
      XorKeepsTop(if q % 2 == 1 then d else 0, 2 * PolyMul(d, q / 2), 2 * d);
    }
  }

  // ----- division -----

  /** p divided by d leaves quotient qr.0 and remainder qr.1. */
  ghost predicate IsDivision(p: nat, d: nat, qr: (nat, nat))
    requires d > 0
  {
    p == Xor(PolyMul(d, qr.0), qr.1) && qr.1 < Top(d)
  }

  /** Long division: bring down the next coefficient of p, subtract d if it fits. */
  function DivMod(p: nat, d: nat): (qr: (nat, nat))
    requires d > 0
    ensures IsDivision(p, d, qr)
  {
    if p == 0 then
      DivZero(d);
      (0, 0)
    else
      var (q, r) := DivMod(p / 2, d);
      DivStep(p, d, q, r);
      var s := 2 * r + p % 2;
      if s < Top(d) then (2 * q, s) else (2 * q + 1, Xor(s, d))
  }

  lemma {:induction false} DivZero(d: nat)
    requires d > 0
    ensures IsDivision(0, d, (0, 0))
  {
  }

  lemma {:induction false} DivStep(p: nat, d: nat, q: nat, r: nat)
    requires d > 0 && IsDivision(p / 2, d, (q, r))
    ensures var s := 2 * r + p % 2;
      IsDivision(p, d, if s < Top(d) then (2 * q, s) else (2 * q + 1, Xor(s, d)))
  {
    var s, m := 2 * r + p % 2, PolyMul(d, q);
    BringDown(p, m, r);
    if s < Top(d) {
      MulDouble(d, q);
    } else {
      MulOdd(d, q);
      Subtract(d, s, m);
      assert p == Xor(Xor(d, 2 * m), Xor(s, d));
    }
  }

  lemma {:induction false} BringDown(p: nat, m: nat, r: nat)
    requires p / 2 == Xor(m, r)
    ensures p == Xor(2 * m, 2 * r + p % 2)
  {
    XorUnfold(2 * m, 2 * r + p % 2);
  }

  lemma {:induction false} MulOdd(d: nat, q: nat)
    ensures PolyMul(d, 2 * q + 1) == Xor(d, 2 * PolyMul(d, q))
  {
    hide Xor;
    assert (2 * q + 1) / 2 == q && (2 * q + 1) % 2 == 1;
  }

  lemma {:induction false} Subtract(d: nat, s: nat, m: nat)
    requires d > 0 && Top(d) <= s < 2 * Top(d)
    ensures Xor(2 * m, s) == Xor(Xor(d, 2 * m), Xor(s, d)) && Xor(s, d) < Top(d)
  {
    XorDropsTop(s, d);
    XorComm(s, d);
    XorComm(d, 2 * m);
    XorAssoc(2 * m, d, Xor(d, s));
    XorCancel(d, s);
  }

  /** The remainder of p modulo d. */
  function Mod(p: nat, d: nat): (r: nat)
    requires d > 0
    ensures r < Top(d)
  {
    DivMod(p, d).1
  }

  /** Quotient and remainder are the only pair that division can return. */
  lemma {:induction false} DivModUnique(d: nat, q: nat, r: nat)
    requires d > 0 && r < Top(d)
    ensures DivMod(Xor(PolyMul(d, q), r), d) == (q, r)
  {
    var p := Xor(PolyMul(d, q), r);
    var (q', r') := DivMod(p, d);
    var m, m' := PolyMul(d, q), PolyMul(d, q');
    MulDistribRight(d, q, q');
    // m + r = m' + r' gives m + m' = r + r', whose degree is too small
    assert Xor(m, m') == Xor(r, r') by {
      XorSwap(m, r, m', r');
      XorSelf(p);
      XorZero(Xor(m, m'), Xor(r, r'));
    }
    XorBelow(r, r', d);
    if Xor(q, q') != 0 {
      MulKeepsTop(d, Xor(q, q'));
    }
    XorZero(q, q');
    XorCancel(m, r);
    XorCancel(m, r');
  }

  lemma {:induction false} XorZero(a: nat, b: nat)
    requires Xor(a, b) == 0
    ensures a == b
  {
    XorCancel(a, b);
  }

  /** Reduction is linear. */
  lemma {:induction false} ModAdd(p: nat, q: nat, d: nat)
    requires d > 0
    ensures Mod(Xor(p, q), d) == Xor(Mod(p, d), Mod(q, d))
  {
    var (a, r) := DivMod(p, d);
    var (b, s) := DivMod(q, d);
    XorSwap(PolyMul(d, a), r, PolyMul(d, b), s);
    MulDistribRight(d, a, b);
    XorBelow(r, s, d);
    DivModUnique(d, Xor(a, b), Xor(r, s));
  }

  lemma {:induction false} ModSmall(r: nat, d: nat)
    requires d > 0 && r < Top(d)
    ensures Mod(r, d) == r
  {
    DivModUnique(d, 0, r);
  }

  lemma {:induction false} ModMultiple(d: nat, k: nat)
    requires d > 0
    ensures Mod(PolyMul(d, k), d) == 0
    ensures Mod(PolyMul(k, d), d) == 0
  {
    MulComm(k, d);
    DivModUnique(d, k, 0);
  }

  /** Adding the modulus itself does not change the remainder. */
  lemma {:induction false} ModAddModulus(p: nat, d: nat)
    requires d > 0
    ensures Mod(Xor(p, d), d) == Mod(p, d)
  {
    MulOne(d);
    ModMultiple(d, 1);
    ModAdd(p, d, d);
    XorComm(Mod(p, d), 0);
  }

  /** Reducing a factor first does not change the reduced product. */
  lemma {:induction false} ModMul(a: nat, b: nat, d: nat)
    requires d > 0
    ensures Mod(PolyMul(Mod(a, d), b), d) == Mod(PolyMul(a, b), d)
    ensures Mod(PolyMul(b, Mod(a, d)), d) == Mod(PolyMul(b, a), d)
  {
    var (q, r) := DivMod(a, d);
    var whole := PolyMul(d, q);
    MulDistrib(whole, r, b);
    MulAssoc(d, q, b);
    ModMultiple(d, PolyMul(q, b));
    ModAdd(PolyMul(whole, b), PolyMul(r, b), d);
    MulComm(b, r);
    MulComm(b, a);
  }
}
