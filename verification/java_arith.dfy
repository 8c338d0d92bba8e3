/**
 * Java's integer division and remainder, which truncate toward zero, and the
 * background renderer's `realModulo` built on them. Dafny's own `/` and `%`
 * are Euclidean, so the two agree only on non-negative operands.
 */
module JavaArith {

  /** Java's `n / d` for a positive divisor: the quotient rounded toward zero. */
  function Div(n: int, d: int): (q: int)
    requires d > 0
    ensures n >= 0 ==> q == n / d
    ensures q * d + Rem(n, d) == n
  {
    if n >= 0 then n / d else -((-n) / d)
  }

  /**
   * Java's `n % d` for a positive divisor: the remainder takes the sign of
   * the dividend and is smaller than the divisor in magnitude.
   */
  function Rem(n: int, d: int): (r: int)
    requires d > 0
    ensures n >= 0 ==> 0 <= r < d
    ensures n < 0 ==> -d < r <= 0
  {
    if n >= 0 then n % d else -((-n) % d)
  }

  /**
   * The renderer's `realModulo(number, modulo)`: Java's remainder for a
   * non-negative number, and the remainder plus the modulus otherwise.
   */
  function RealModulo(number: int, modulo: int): (r: int)
    requires modulo > 0
    ensures number >= 0 ==> r == number % modulo
    ensures number < 0 ==> 0 < r <= modulo
  {
    if number >= 0 then Rem(number, modulo)
    else Rem(number, modulo) + modulo
  }

  /**
   * The result lies in 0..modulo inclusive and is congruent to the number;
   * the upper end is reached exactly by negative multiples of the modulus,
   * where a mathematical modulo would give 0.
   */
  lemma RealModuloRange(number: int, modulo: int)
    requires modulo > 0
    ensures 0 <= RealModulo(number, modulo) <= modulo
    ensures RealModulo(number, modulo) % modulo == number % modulo
    ensures RealModulo(number, modulo) == modulo <==> number < 0 && number % modulo == 0
    ensures RealModulo(number, modulo) != modulo ==> RealModulo(number, modulo) == number % modulo
  {
    if number < 0 {
      ModUnique(modulo, modulo, 1, 0);
      if (-number) % modulo == 0 {
        NegativeMultiple(number, modulo);
      } else {
        NegativeNonMultiple(number, modulo);
      }
    }
  }

  /** A negative multiple of the modulus is sent to the modulus itself. */
  lemma NegativeMultiple(number: int, modulo: int)
    requires number < 0 < modulo && (-number) % modulo == 0
    ensures number % modulo == 0 && RealModulo(number, modulo) == modulo
  {
    var q := (-number) / modulo;
    assert -number == q * modulo;
    ModUnique(number, modulo, -q, 0);
  }

  /** Any other negative number is sent to its Euclidean remainder. */
  lemma NegativeNonMultiple(number: int, modulo: int)
    requires number < 0 < modulo && (-number) % modulo != 0
    ensures 0 < RealModulo(number, modulo) < modulo
    ensures RealModulo(number, modulo) == number % modulo
    ensures RealModulo(number, modulo) % modulo == number % modulo
  {
    var q, s := (-number) / modulo, (-number) % modulo;
    assert -number == q * modulo + s;
    assert number == (-q - 1) * modulo + (modulo - s);
    ModUnique(number, modulo, -q - 1, modulo - s);
    ModUnique(modulo - s, modulo, 0, modulo - s);
  }

  /** Euclidean division is unique: a quotient and in-range remainder are the ones `/` and `%` give. */
  lemma ModUnique(n: int, m: int, q: int, r: int)
    requires m > 0 && 0 <= r < m
    requires n == q * m + r
    ensures n % m == r && n / m == q
  {
    var q', r' := n / m, n % m;
    assert n == q' * m + r';
    if q > q' {
      assert (q - q') * m == r' - r;
      MulAtLeast(q - q', m);
    } else if q < q' {
      assert (q' - q) * m == r - r';
      MulAtLeast(q' - q, m);
    }
  }

  lemma MulAtLeast(a: int, m: int)
    requires a >= 1 && m > 0
    ensures a * m >= m
  {
  }

  /**
   * Java's narrowing of an int to `byte`: the low eight bits read as a
   * two's-complement value, so the result is the one value in -128..127
   * congruent to the input modulo 256.
   */
  function ToByte(v: int): (b: int)
    ensures -128 <= b <= 127
    ensures (b - v) % 256 == 0
  {
    (v + 128) % 256 - 128
  }

  /** Narrowing an intermediate result to a byte does not change a later narrowing. */
  lemma ToByteShift(v: int, k: int)
    ensures ToByte(ToByte(v) + k) == ToByte(v + k)
  {
    var b := ToByte(v);
    var q := (b - v) / 256;
    ModUnique(b - v, 256, q, 0);
    var x := v + k + 128;
    ModUnique(x + 256 * q, 256, x / 256 + q, x % 256);
    assert b + k + 128 == x + 256 * q;
  }
}
