/** Arithmetic modulo a prime: remainders, and inverses by the extended Euclidean algorithm. */
module PrimeField {

  ghost predicate Divides(g: nat, a: nat) {
    exists k: nat :: a == g * k
  }

  /** Nothing divides a prime but 1 and the prime. */
  ghost predicate Prime(q: nat) {
    q > 1 && forall d: nat :: Divides(d, q) ==> d == 1 || d == q
  }

  /** The remainder is determined by any decomposition into a multiple and a small rest. */
  lemma ModUnique(a: int, m: nat, k: int, r: int)
    requires m > 0 && 0 <= r < m && a == m * k + r
    ensures a % m == r && a / m == k
  {
    var k', r' := a / m, a % m;
    Divided(a, m);
    assert m * (k' - k) == r - r' by {
      assert m * (k' - k) == m * k' - m * k;
    }
    NoMultipleBetween(m, k' - k, r - r');
  }

  lemma Divided(a: int, m: nat)
    requires m > 0
    ensures a == m * (a / m) + a % m && 0 <= a % m < m
  {
  }

  lemma {:induction false} MulAtLeast(m: nat, k: nat)
    requires m > 0 && k > 0
    ensures m * k >= m
    decreases k
  {
    if k > 1 {
      MulAtLeast(m, k - 1);
      assert m * k == m * (k - 1) + m;
    }
  }

  lemma NoMultipleBetween(m: int, k: int, d: int)
    requires m > 0 && m * k == d && -m < d < m
    ensures k == 0 && d == 0
  {
    if k > 0 {
      MulAtLeast(m, k);
    } else if k < 0 {
      assert m * -k == -(m * k);
      MulAtLeast(m, -k);
    }
  }

  lemma ModShift(a: int, m: nat, k: int)
    requires m > 0
    ensures (a + m * k) % m == a % m
  {
    Divided(a, m);
    assert m * (a / m + k) == m * (a / m) + m * k;
    ModUnique(a + m * k, m, a / m + k, a % m);
  }

  datatype Bezout = Bezout(g: nat, x: int, y: int)

  /** Extended Euclid: a common divisor of a and b, and how they combine to it. */
  function Egcd(a: nat, b: nat): Bezout
    decreases b
  {
    if b == 0 then Bezout(a, 1, 0)
    else
      var e := Egcd(b, a % b);
      Bezout(e.g, e.y, e.x - (a / b) * e.y)
  }

  lemma Regroup(a: int, b: int, d: int, r: int, x: int, y: int)
    requires a == b * d + r
    ensures a * y + b * (x - d * y) == b * x + r * y
  {
    assert b * (x - d * y) == b * x - b * (d * y);
    assert (b * d + r) * y == b * d * y + r * y;
    assert b * (d * y) == b * d * y;
  }

  lemma DividesSelf(a: nat)
    ensures Divides(a, a) && Divides(a, 0)
  {
    assert a == a * 1 && 0 == a * 0;
  }

  lemma DividesSum(g: nat, a: nat, b: nat, d: nat, r: nat)
    requires Divides(g, b) && Divides(g, r) && a == b * d + r
    ensures Divides(g, a)
  {
    var i: nat :| b == g * i;
    var j: nat :| r == g * j;
    assert g * i * d == g * (i * d);
    assert a == g * (i * d + j);
  }

  lemma {:induction false} EgcdIsBezout(a: nat, b: nat)
    requires a > 0 || b > 0
    ensures var e := Egcd(a, b); e.g > 0 && a * e.x + b * e.y == e.g && Divides(e.g, a) && Divides(e.g, b)
    decreases b
  {
    hide Divides;
    if b == 0 {
      DividesSelf(a);
    } else {
      var r, d := a % b, a / b;
      EgcdIsBezout(b, r);
      Divided(a, b);
      var e := Egcd(b, r);
      Regroup(a, b, d, r, e.x, e.y);
      DividesSum(e.g, a, b, d, r);
    }
  }

  function Inverse(a: nat, q: nat): nat
    requires q > 0
  {
    Egcd(a, q).x % q
  }

  /** Every scalar that is not a multiple of the prime has an inverse. */
  lemma InverseWorks(a: nat, q: nat) returns (k: int)
    requires Prime(q) && a % q != 0
    ensures a * Inverse(a, q) == 1 + q * k
  {
    var e := Egcd(a, q);
    EgcdIsBezout(a, q);
    if e.g == q {
      var i: nat :| a == q * i;
      ModUnique(a, q, i, 0);
    }
    Divided(e.x, q);
    var d := e.x / q;
    k := -e.y - a * d;
    assert a * Inverse(a, q) == a * e.x - a * (q * d) by {
      assert Inverse(a, q) == e.x - q * d;
      assert a * (e.x - q * d) == a * e.x - a * (q * d);
    }
    assert q * k == -(q * e.y) - q * (a * d) by {
      assert q * (-e.y - a * d) == q * (-e.y) - q * (a * d);
    }
    assert q * (a * d) == a * (q * d);
  }
}
