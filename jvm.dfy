/**
 * The pieces of Java's arithmetic and string semantics the model needs:
 * 32-bit two's-complement wrap-around, unsigned bytes (`b & 0xFF`),
 * big-endian packing, and ASCII case folding.
 */
module Jvm {

  /** The exception kinds the modelled code throws; `Failure(e)` in a `Result` means "throws e". */
  datatype Exception =
    | IllegalArgument        // IllegalArgumentException
    | InvalidSalt            // vash.InvalidSaltException
    | InvalidAlgorithm       // vash.InvalidAlgorithmException
    | IndexOutOfBounds       // StringIndexOutOfBoundsException or ArrayIndexOutOfBoundsException
    | NegativeArraySize      // NegativeArraySizeException
    | NullPointer            // NullPointerException
    | Runtime                // a plain RuntimeException

  /** A byte as the unsigned value `b & 0xFF` that the Java code always works with. */
  type byte = x: int | 0 <= x < 256

  const INT_MIN: int := -0x8000_0000
  const INT_MAX: int := 0x7FFF_FFFF
  const TWO_32: int := 0x1_0000_0000
  /** `1L << 31` and `1L << 53`. */
  const TWO_31: nat := 0x8000_0000
  const TWO_53: nat := 0x20_0000_0000_0000

  predicate IsInt32(x: int) {
    INT_MIN <= x <= INT_MAX
  }

  /** The value Java's `int` arithmetic yields for the mathematical result `x`. */
  function Wrap32(x: int): (r: int)
    ensures IsInt32(r)
    ensures IsInt32(x) ==> r == x
  {
    if IsInt32(x) then x else (x - INT_MIN) % TWO_32 + INT_MIN
  }

  /** The wrapped value differs from `x` by a multiple of 2^32. */
  lemma Wrap32Congruent(x: int)
    ensures (x - Wrap32(x)) % TWO_32 == 0
  {
  }

  lemma Wrap32Add(x: int, k: int)
    ensures Wrap32(Wrap32(x) + k) == Wrap32(x + k)
  {
    var a := Wrap32(x);
    Wrap32Congruent(x);
    var q := (x - a) / TWO_32;
    assert x + k - INT_MIN == (a + k - INT_MIN) + q * TWO_32;
    ModShift(a + k - INT_MIN, q);
  }

  lemma ModShift(y: int, q: int)
    ensures (y + q * TWO_32) % TWO_32 == y % TWO_32
  {
  }

  /** The unsigned 32-bit pattern of an `int`, as `x & 0xFFFFFFFFL`. */
  function Unsigned32(x: int): (r: nat)
    ensures r < TWO_32
    ensures 0 <= x < TWO_32 ==> r == x
  {
    x % TWO_32
  }

  function Pow2(n: nat): (r: nat)
    ensures r >= 1
  {
    if n == 0 then 1 else 2 * Pow2(n - 1)
  }

  /** `x << k` on non-negative values. */
  function Shl(x: nat, k: nat): nat {
    if k == 0 then x else 2 * Shl(x, k - 1)
  }

  lemma {:induction false} ShlIsMul(x: nat, k: nat)
    ensures Shl(x, k) == x * Pow2(k)
  {
    if k > 0 {
      ShlIsMul(x, k - 1);
    }
  }

  lemma {:induction false} ShlDouble(x: nat, k: nat)
    ensures Shl(x, k + 1) == Shl(2 * x, k)
  {
    if k > 0 {
      ShlDouble(x, k - 1);
    }
  }

  lemma {:induction false} ShlAdd(x: nat, y: nat, k: nat)
    ensures Shl(x + y, k) == Shl(x, k) + Shl(y, k)
  {
    if k > 0 {
      ShlAdd(x, y, k - 1);
    }
  }

  lemma {:induction false} ShlPow2(a: nat, k: nat)
    ensures Shl(Pow2(a), k) == Pow2(a + k)
  {
    if k > 0 {
      ShlPow2(a, k - 1);
    }
  }

  lemma {:induction false} ShlZero(k: nat)
    ensures Shl(0, k) == 0
  {
    if k > 0 {
      ShlZero(k - 1);
    }
  }

  lemma {:induction false} Pow2Add(a: nat, b: nat)
    ensures Pow2(a + b) == Pow2(a) * Pow2(b)
  {
    if a > 0 {
      Pow2Add(a - 1, b);
    }
  }

  lemma {:induction false} Pow2Monotone(a: nat, b: nat)
    requires a <= b
    ensures Pow2(a) <= Pow2(b)
  {
    if a < b {
      Pow2Monotone(a, b - 1);
    }
  }

  /** `x >> k` on non-negative values. */
  function Shr(x: nat, k: nat): nat {
    if k == 0 then x else Shr(x / 2, k - 1)
  }

  lemma {:induction false} ShrStep(x: nat, k: nat)
    ensures Shr(x, k + 1) == Shr(x, k) / 2
    decreases k
  {
    if k > 0 {
      ShrStep(x / 2, k - 1);
    }
  }

  lemma {:induction false} ShrSmall(x: nat, k: nat)
    requires x < Pow2(k)
    ensures Shr(x, k) == 0
    decreases k
  {
    if k > 0 {
      ShrSmall(x / 2, k - 1);
    }
  }

  /** `((x >> j) & 1) == 1` for a non-negative `x`. */
  predicate BitOf(x: nat, j: nat) {
    if j == 0 then x % 2 == 1 else BitOf(x / 2, j - 1)
  }

  /** No bit of 0 is set. */
  lemma {:induction false} BitOfZero(j: nat)
    ensures !BitOf(0, j)
  {
    if j > 0 {
      BitOfZero(j - 1);
    }
  }

  lemma {:induction false} BitOfDiv(x: nat, j: nat)
    ensures BitOf(x, j) <==> (x / Pow2(j)) % 2 == 1
  {
    if j > 0 {
      BitOfDiv(x / 2, j - 1);
      DivDiv(x, 2, Pow2(j - 1));
    }
  }

  lemma {:induction false} BitOfShr(x: nat, j: nat)
    ensures BitOf(x, j) <==> Shr(x, j) % 2 == 1
    decreases j
  {
    if j > 0 {
      BitOfShr(x / 2, j - 1);
    }
  }

  /** Dividing twice is dividing by the product. */
  lemma DivDiv(x: nat, a: nat, b: nat)
    requires a > 0 && b > 0
    ensures x / a / b == x / (a * b)
  {
    var q := x / a;
    var r := x % a;
    var t := q / b;
    var u := q % b;
    assert x == t * (a * b) + (u * a + r) by {
      assert x == q * a + r;
      assert q * a == (t * b + u) * a;
    }
    assert u * a + r < a * b by {
      MulMonotone(u, b - 1, a);
    }
    DivModUnique(x, a * b, t, u * a + r);
  }

  /** What `(n & -n) == n` tests for a positive `int` `n`. */
  predicate PowerOfTwo(n: nat)
    decreases n
  {
    n == 1 || (n >= 2 && n % 2 == 0 && PowerOfTwo(n / 2))
  }

  lemma {:induction false} PowerOfTwoIsPow2(n: nat)
    ensures PowerOfTwo(n) <==> exists k: nat :: Pow2(k) == n
  {
    if n == 1 {
      assert Pow2(0) == 1;
    }
    if PowerOfTwo(n) && n >= 2 {
      PowerOfTwoIsPow2(n / 2);
      var k: nat :| Pow2(k) == n / 2;
      assert Pow2(k + 1) == n;
    }
    if exists k: nat :: Pow2(k) == n {
      var k: nat :| Pow2(k) == n;
      if k > 0 {
        assert n == 2 * Pow2(k - 1);
        assert Pow2(k - 1) == n / 2;
        PowerOfTwoIsPow2(n / 2);
        assert PowerOfTwo(n / 2);
      }
    }
  }

  /** Division by a positive `d` is unique. */
  lemma DivModUnique(x: int, d: int, a: int, b: int)
    requires d > 0 && 0 <= b < d && x == a * d + b
    ensures x / d == a && x % d == b
  {
    var q := x / d;
    var r := x % d;
    assert (a - q) * d == r - b;
    if a - q >= 1 {
      MulAtLeast(a - q, d);
    } else if a - q <= -1 {
      MulAtLeast(q - a, d);
    }
  }

  /**
   * Java's `a % n` for a >= 0 and n > 0, where it agrees with Dafny's `%` (RemIsMod). It is
   * written as repeated subtraction so that the proofs using it meet no nonlinear `%`.
   */
  function Rem(a: nat, n: nat): (r: nat)
    requires n > 0
    ensures r < n && r <= a
    decreases a
  {
    if a < n then a else Rem(a - n, n)
  }

  lemma {:induction false} RemIsMod(a: nat, n: nat)
    requires n > 0
    ensures Rem(a, n) == a % n
    decreases a
  {
    if a >= n {
      RemIsMod(a - n, n);
      DivModUnique(a, n, (a - n) / n + 1, (a - n) % n);
    }
  }

  /** One more byte of a quotient: `(u / (256 d)) * 256 + (u / d) % 256 == u / d`. */
  lemma DivStep(u: nat, d: nat)
    requires d > 0
    ensures (u / (d * 256)) * 256 + (u / d) % 256 == u / d
  {
    var q := u / d;
    var r := u % d;
    assert q == (q / 256) * 256 + q % 256;
    assert u == (q / 256) * (d * 256) + ((q % 256) * d + r) by {
      assert u == q * d + r;
      assert q * d == ((q / 256) * 256 + q % 256) * d;
    }
    assert (q % 256) * d + r < d * 256 by {
      MulMonotone(q % 256, 255, d);
    }
    DivModUnique(u, d * 256, q / 256, (q % 256) * d + r);
  }

  lemma MulAtLeast(m: int, d: int)
    requires m >= 1 && d > 0
    ensures m * d >= d
  {
  }
  /** Splitting off the top bit of the low `k+1` bits of `x`. */
  lemma ModPow2Split(x: nat, k: nat)
    ensures x % Pow2(k + 1) == ((x / Pow2(k)) % 2) * Pow2(k) + x % Pow2(k)
  {
    var p := Pow2(k);
    var q := x / p;
    var r := x % p;
    assert x == q * p + r;
    var h := q / 2;
    var c := q % 2;
    assert q == h * 2 + c;
    assert x == h * (2 * p) + (c * p + r) by {
      assert q * p == (h * 2 + c) * p;
    }
    assert c * p + r < 2 * p by {
      if c == 0 { } else { assert c == 1; }
    }
    DivModUnique(x, 2 * p, h, c * p + r);
  }

  lemma TopBitSplit(x: nat, k: nat)
    ensures (if (x / Pow2(k)) % 2 == 1 then Pow2(k) else 0) + x % Pow2(k) == x % Pow2(k + 1)
  {
    ModPow2Split(x, k);
    var c := (x / Pow2(k)) % 2;
    if c == 0 {
      assert c * Pow2(k) == 0;
    } else {
      assert c == 1;
    }
  }

  lemma ByteBelowPow2Eight(x: byte)
    ensures x % Pow2(8) == x
  {
    Pow2Table();
  }

  lemma MulStrict(n: int, b: int, p: int)
    requires n > 0 && b < p
    ensures n * b < n * p
  {
  }

  /** `x < n * p` bounds the quotient by `p` below `n`. */
  lemma DivBelow(x: nat, n: nat, p: nat)
    requires p > 0 && x < n * p
    ensures x / p < n
  {
    if x / p >= n {
      MulMonotone(n, x / p, p);
    }
  }

  /** `(n * b) / p` stays in [0,n) for b in [0,p): the scaling of a draw below `p` to [0,n). */
  lemma ScaleBelow(n: int, b: int, p: int)
    requires n > 0 && 0 <= b < p
    ensures 0 <= (n * b) / p < n
  {
    MulStrict(n, b, p);
    assert n * b >= 0;
    DivBelow(n * b, n, p);
  }

  lemma ModAddMod(a: nat, b: nat, m: nat)
    requires m > 0
    ensures (a % m + b) % m == (a + b) % m
  {
    var q := a / m;
    var y := a % m + b;
    var t := y / m;
    var u := y % m;
    assert a + b == (q + t) * m + u by {
      assert a == q * m + a % m;
      assert y == t * m + u;
      assert (q + t) * m == q * m + t * m;
    }
    DivModUnique(a + b, m, q + t, u);
  }

  lemma MulMonotone(a: int, b: int, c: nat)
    requires a <= b
    ensures a * c <= b * c
  {
  }

  lemma RealDivBelowOne(a: nat, b: nat)
    requires a < b
    ensures 0.0 <= a as real / b as real < 1.0
  {
    var q := a as real / b as real;
    assert q * b as real == a as real;
  }

  /** The powers of two the modelled code shifts by. */
  lemma Pow2Table()
    ensures Pow2(8) == 0x100 && Pow2(16) == 0x1_0000 && Pow2(24) == 0x100_0000
    ensures Pow2(26) == 0x400_0000 && Pow2(27) == 0x800_0000
    ensures Pow2(31) == 0x8000_0000 && Pow2(32) == 0x1_0000_0000
    ensures Pow2(48) == 0x1_0000_0000_0000 && Pow2(53) == 0x20_0000_0000_0000
  {
    assert Pow2(4) == 16;
    assert Pow2(8) == 0x100 by { Pow2Add(4, 4); }
    assert Pow2(16) == 0x1_0000 by { Pow2Add(8, 8); }
    assert Pow2(24) == 0x100_0000 by { Pow2Add(16, 8); }
    assert Pow2(26) == 0x400_0000 by { Pow2Add(24, 2); }
    assert Pow2(27) == 0x800_0000 by { Pow2Add(24, 3); }
    assert Pow2(31) == 0x8000_0000 by { Pow2Add(24, 7); Pow2Add(4, 3); }
    assert Pow2(32) == 0x1_0000_0000 by { Pow2Add(16, 16); }
    assert Pow2(48) == 0x1_0000_0000_0000 by { Pow2Add(32, 16); }
    assert Pow2(53) == 0x20_0000_0000_0000 by { Pow2Add(48, 5); Pow2Add(4, 1); }
  }

  /** The bytes of `s` read as one unsigned number, most significant first. */
  function BigEndian(s: seq<byte>): (r: nat)
  {
    if |s| == 0 then 0 else BigEndian(s[..|s| - 1]) * 256 + s[|s| - 1]
  }

  lemma {:induction false} BigEndianBound(s: seq<byte>)
    ensures BigEndian(s) < Pow2(8 * |s|)
  {
    if |s| > 0 {
      var t := s[..|s| - 1];
      BigEndianBound(t);
      Pow2Add(8 * |t|, 8);
      assert Pow2(8) == 256;
      assert BigEndian(s) <= (Pow2(8 * |t|) - 1) * 256 + 255;
    }
  }

  /** Four bytes, most significant first. */
  lemma BigEndianFour(s: seq<byte>)
    requires |s| == 4
    ensures BigEndian(s) == ((s[0] as int * 256 + s[1] as int) * 256 + s[2] as int) * 256 + s[3] as int
  {
    assert s[..1] == [s[0]] && s[..1][..0] == [];
    assert s[..2][..1] == s[..1] && s[..3][..2] == s[..2] && s[..4][..3] == s[..3] && s[..4] == s;
    assert BigEndian(s[..1]) == s[0] as int;
    assert BigEndian(s[..2]) == s[0] as int * 256 + s[1] as int;
  }

  /** `Wrap32` keeps the 32-bit pattern: reading it back unsigned gives the original value. */
  lemma Unsigned32Wrap32(x: int)
    requires 0 <= x < TWO_32
    ensures Unsigned32(Wrap32(x)) == x
  {
    if x > INT_MAX {
      assert Wrap32(x) == x - TWO_32;
    }
  }

  /** Java's `toLowerCase` restricted to ASCII letters. */
  function LowerChar(c: char): char {
    if 'A' <= c <= 'Z' then (c as int + 32) as char else c
  }

  /** `toLowerCase` over ASCII: each character lower-cased in place. */
  function ToLower(s: string): (r: string)
    ensures |r| == |s|
  {
    seq(|s|, i requires 0 <= i < |s| => LowerChar(s[i]))
  }

  /** Java's `String.equalsIgnoreCase` over ASCII. */
  predicate EqualsIgnoreCase(a: string, b: string) {
    ToLower(a) == ToLower(b)
  }

  predicate EndsWith(s: string, suffix: string) {
    |suffix| <= |s| && s[|s| - |suffix|..] == suffix
  }
}
