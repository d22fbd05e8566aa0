/** The commitment arithmetic of the Trent-selection step: the public modulus P,
    the generator G, and exponentiation modulo P (BigInteger.modPow). Every value
    is an unbounded natural, so no overflow can arise. */
module Commitment {

  /** The shared prime modulus. */
  const P: nat := 124233341635855292420681698148845681014844866056212176632655173602444135581779341928584451946831820357622587249219477577145009300106828967466602146104562163160400103396735672041344557638270362523343149686623705761738910044071399582025053147811261321814632661084042311141045136246602979886564584763268994320823

  /** The shared generator. */
  const G: nat := 57879985263161130068016239981615161174385902716647642452899971198439084259551250230041086427537114453738884538337956090286524329552098304591825815816298805245947460536391128315522193556464285417135160058086869161063941463490748168352401178939129440934609861888674726565294073773971086710395310743717916632171

  /** Plain exponentiation, the reference for ModPow. */
  function Pow(b: nat, e: nat): nat
    decreases e
  {
    if e == 0 then 1 else b * Pow(b, e - 1)
  }

  /** b^e mod m, computed by repeated modular multiplication; it agrees with
      reducing the plain power modulo m. */
  function ModPow(b: nat, e: nat, m: nat): (r: nat)
    requires m > 0
    ensures r < m
    ensures r == Pow(b, e) % m
    decreases e
  {
    if e == 0 then 1 % m
    else
      var rest := ModPow(b, e - 1, m);
      MulModRight(b, Pow(b, e - 1), m);
      (b * rest) % m
  }

  lemma MulAtLeast(d: nat, m: nat)
    requires d >= 1
    ensures d * m >= m
  {
    assert d * m == (d - 1) * m + m;
  }

  /** The remainder is determined by any quotient-remainder decomposition. */
  lemma ModUnique(a: nat, q: nat, r: nat, m: nat)
    requires m > 0 && r < m && a == q * m + r
    ensures a % m == r
  {
    var q', r' := a / m, a % m;
    assert a == q' * m + r';
    if q' > q {
      var d := q' - q;
      assert q' * m == q * m + d * m;
      MulAtLeast(d, m);
      assert false;
    } else if q > q' {
      var d := q - q';
      assert q * m == q' * m + d * m;
      MulAtLeast(d, m);
      assert false;
    }
  }

  /** A multiple of m vanishes modulo m. */
  lemma ModAddMultiple(k: nat, y: nat, m: nat)
    requires m > 0
    ensures (k * m + y) % m == y % m
  {
    var q, r := y / m, y % m;
    assert k * m + y == (k + q) * m + r;
    ModUnique(k * m + y, k + q, r, m);
  }

  /** Reducing the right factor first does not change a product modulo m. */
  lemma MulModRight(a: nat, x: nat, m: nat)
    requires m > 0
    ensures (a * (x % m)) % m == (a * x) % m
  {
    var q, r := x / m, x % m;
    assert x == q * m + r;
    assert a * x == (a * q) * m + a * r;
    ModAddMultiple(a * q, a * r, m);
  }

  /** Reducing the base first does not change ModPow. */
  lemma {:induction false} ModPowReducedBase(b: nat, e: nat, m: nat)
    requires m > 0
    ensures ModPow(b % m, e, m) == ModPow(b, e, m)
    decreases e
  {
    if e > 0 {
      ModPowReducedBase(b, e - 1, m);
      var rest := ModPow(b, e - 1, m);
      MulModRight(rest, b, m);
      assert (b % m) * rest == rest * (b % m);
      assert b * rest == rest * b;
    }
  }

  lemma {:induction false} PowAdd(b: nat, x: nat, y: nat)
    ensures Pow(b, x + y) == Pow(b, x) * Pow(b, y)
    decreases y
  {
    if y > 0 {
      PowAdd(b, x, y - 1);
      calc {
        Pow(b, x + y);
        b * Pow(b, x + y - 1);
        b * (Pow(b, x) * Pow(b, y - 1));
        Pow(b, x) * (b * Pow(b, y - 1));
      }
    }
  }

  lemma {:induction false} PowMul(b: nat, x: nat, y: nat)
    ensures Pow(Pow(b, x), y) == Pow(b, x * y)
    decreases y
  {
    if y > 0 {
      PowMul(b, x, y - 1);
      PowAdd(b, x, x * (y - 1));
      assert x + x * (y - 1) == x * y;
    }
  }

  /** Raising a commitment to an exponent gives G^(a*e) mod P. */
  lemma SharedValue(a: nat, e: nat)
    ensures ModPow(ModPow(G, a, P), e, P) == Pow(G, a * e) % P
  {
    ModPowReducedBase(Pow(G, a), e, P);
    PowMul(G, a, e);
  }

  /** The Diffie-Hellman identity the round-2 check relies on:
      (G^a mod P)^b mod P == (G^b mod P)^a mod P for all secrets a, b. */
  lemma SharedValueAgrees(a: nat, b: nat)
    ensures ModPow(ModPow(G, a, P), b, P) == ModPow(ModPow(G, b, P), a, P)
  {
    SharedValue(a, b);
    SharedValue(b, a);
    assert a * b == b * a;
  }
}
