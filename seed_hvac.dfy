/**
 * Algorithm "1.1": the HKDF-like bit source `SeedProviderHVAC` (src/vash/Seed.java:39-195).
 *
 * Extract is HMAC-SHA512 keyed with the salt over the input data; the first 32 bytes of
 * that pseudo-random key key an HMAC-SHA256 expand, and each block is
 *   T(i+1) = HMAC-SHA256(T(i) || INFO || counter)
 * with T(0) = 32 zero bytes and a 4-byte counter written most significant byte first.
 * The block is served bit by bit (bit 8i+(7-j) of the block is bit j of byte i).
 *
 * The two HMACs are passed in as total functions; the model only relies on the lengths
 * of their results.
 */
module SeedHvac {
  import opened Jvm
  import opened Wrappers

  const PRF_SIZE: nat := 32
  const SALT_SIZE: nat := 64
  const BLOCK_BITS: nat := 256

  type Bytes32 = s: seq<byte> | |s| == 32 witness seq(32, _ => 0)
  type Bytes64 = s: seq<byte> | |s| == 64 witness seq(64, _ => 0)

  /**
   * HMAC-SHA256 as a function of key and message. Keys and messages are byte strings; the
   * parameters are declared over `int` so that applying the function needs no range argument.
   */
  type Mac256 = (seq<int>, seq<int>) -> Bytes32
  /** HMAC-SHA512 as a function of key and message, declared like `Mac256`. */
  type Mac512 = (seq<int>, seq<int>) -> Bytes64
  /** `hmacExpand` once initialised with its key: HMAC-SHA256 of a message under a fixed key. */
  type Expand = seq<int> -> Bytes32
  /**
   * The block chain as a function of the previous block and the counter; for a keyed
   * `hmacExpand` it is `ChainOf(mac)`. The bit-stream functions below are stated over it.
   */
  type Chain = (seq<int>, int) -> Bytes32

  /** The first 512 bits of pi, the salt used when none is given. */
  const DEFAULT_SALT: seq<byte> := [
    201,  15, 218, 162,  33, 104, 194,  52, 196, 198,  98, 139, 128, 220,  28, 209,
     41,   2,  78,   8, 138, 103, 204, 116,   2,  11, 190, 166,  59,  19, 155,  34,
     81,  74,   8, 121, 142,  52,   4, 221, 239, 149,  25, 179, 205,  58,  67,  27,
     48,  43,  10, 109, 242,  95,  20,  55,  79, 225,  53, 109, 109,  81, 194,  69]

  /** The ASCII bytes of "20110719 terrence@thevash.com VASH/hmacExpandInfoBytes". */
  const INFO: seq<byte> := [
    50, 48, 49, 49, 48, 55, 49, 57, 32, 116, 101, 114, 114, 101, 110, 99, 101, 64,
    116, 104, 101, 118, 97, 115, 104, 46, 99, 111, 109, 32, 86, 65, 83, 72, 47, 104,
    109, 97, 99, 69, 120, 112, 97, 110, 100, 73, 110, 102, 111, 66, 121, 116, 101, 115]

  const ZERO_BLOCK: Bytes32 := [
    0, 0, 0, 0, 0, 0, 0, 0, 0, 0, 0, 0, 0, 0, 0, 0,
    0, 0, 0, 0, 0, 0, 0, 0, 0, 0, 0, 0, 0, 0, 0, 0]

  /** Divisors for `x >> (8 * j)`, j in 0..3. */
  const SHIFTS: seq<nat> := [1, 0x100, 0x1_0000, 0x100_0000]

  /** Byte 3-i of the counter is `(offset >> (8 * (3 - i))) & 0xFF`. */
  function CounterByte(offset: int, j: nat): byte
    requires j < 4
  {
    (Unsigned32(offset) / SHIFTS[j]) % 256
  }

  function CounterBytes(offset: int): seq<byte> {
    [CounterByte(offset, 3), CounterByte(offset, 2), CounterByte(offset, 1), CounterByte(offset, 0)]
  }

  /** The counter is the 32-bit pattern of `Toffset`, most significant byte first. */
  lemma CounterBytesBigEndian(offset: int)
    ensures |CounterBytes(offset)| == 4
    ensures BigEndian(CounterBytes(offset)) == Unsigned32(offset)
  {
    var u := Unsigned32(offset);
    var c := CounterBytes(offset);
    assert u / 0x1_0000_0000 == 0;
    DivStep(u, 0x100_0000);
    DivStep(u, 0x1_0000);
    DivStep(u, 0x100);
    DivStep(u, 1);
    BigEndianFour(c);
  }

  /** The expand input `Tcurrent || INFO || counter`. */
  function ExpandInput(current: seq<int>, offset: int): seq<int> {
    current + INFO + CounterBytes(offset)
  }

  /** `T(i+1) = hmacExpand(T(i) || INFO || counter)`. */
  ghost predicate ChainsWith(g: Chain, mac: Expand) {
    forall c, o {:trigger mac(ExpandInput(c, o))} :: g(c, o) == mac(ExpandInput(c, o))
  }

  function ChainOf(mac: Expand): (r: Chain)
    ensures ChainsWith(r, mac)
  {
    (c, o) => mac(ExpandInput(c, o))
  }

  /**
   * T(i): T(0) is 32 zero bytes and T(i) is made from T(i-1) with the counter at i-1, as the
   * `int` `Toffset` holds it.
   */
  function BlockAt(g: Chain, i: nat): Bytes32
    decreases i
  {
    if i == 0 then ZERO_BLOCK else g(BlockAt(g, i - 1), Wrap32(i - 1))
  }

  /** Each block is the HMAC of the one before, INFO and the counter. */
  lemma BlockAtIsHmac(g: Chain, mac: Expand, i: nat)
    requires ChainsWith(g, mac)
    ensures BlockAt(g, i + 1) == mac(BlockAt(g, i) + INFO + CounterBytes(Wrap32(i)))
  {
    assert ExpandInput(BlockAt(g, i), Wrap32(i)) == BlockAt(g, i) + INFO + CounterBytes(Wrap32(i));
  }

  /** T(1) is the HMAC of 32 zero bytes, INFO and a zero counter. */
  lemma InitialBlock(g: Chain, mac: Expand)
    requires ChainsWith(g, mac)
    ensures BlockAt(g, 1) == mac(ZERO_BLOCK + INFO + [0, 0, 0, 0])
  {
    assert CounterBytes(0) == [0, 0, 0, 0];
    assert ExpandInput(ZERO_BLOCK, 0) == ZERO_BLOCK + INFO + [0, 0, 0, 0];
  }

  /** Bit `k` of the 256-bit view of a block: bit 7-(k%8) of byte k/8. */
  function Bit(block: seq<byte>, k: nat): bool
    requires |block| == PRF_SIZE && k < BLOCK_BITS
  {
    BitOf(block[k / 8], 7 - k % 8)
  }

  /**
   * A place in the provider's output stream: bit `bit` of T(block). The stream is T(1),
   * T(2), ... in order, 256 bits each.
   */
  datatype Cursor = Cursor(block: nat, bit: nat)

  /** The place one bit on: the next bit of the block, or bit 0 of the next block. */
  function Next(c: Cursor): (r: Cursor)
    requires c.bit < BLOCK_BITS
    ensures r.bit < BLOCK_BITS
  {
    if c.bit + 1 == BLOCK_BITS then Cursor(c.block + 1, 0) else Cursor(c.block, c.bit + 1)
  }

  /** The place `n` bits on. */
  function Skip(c: Cursor, n: nat): (r: Cursor)
    requires c.bit < BLOCK_BITS
    ensures r.bit < BLOCK_BITS
    decreases n, c
  {
    if n == 0 then c else Skip(Next(c), n - 1)
  }

  /** The stream bit at `c`, as 0 or 1. */
  function BitValue(g: Chain, c: Cursor): nat
    requires c.bit < BLOCK_BITS
  {
    if Bit(BlockAt(g, c.block), c.bit) then 1 else 0
  }

  /**
   * Reading `n` bits from `c` on into `acc`, each shifted in at the bottom: the loop of
   * `nextBits` in the order it reads the bits.
   */
  function Draw(g: Chain, c: Cursor, n: nat, acc: nat): nat
    requires c.bit < BLOCK_BITS
    decreases n, c, acc
  {
    if n == 0 then acc else Draw(g, Next(c), n - 1, 2 * acc + BitValue(g, c))
  }

  /** The `n` stream bits from `c` on, as a number whose first bit is the most significant. */
  function StreamValue(g: Chain, c: Cursor, n: nat): nat
    requires c.bit < BLOCK_BITS
  {
    Draw(g, c, n, 0)
  }

  /** What was read before the `n` bits ends up `n` places higher. */
  lemma {:induction false} DrawAcc(g: Chain, c: Cursor, n: nat, acc: nat)
    requires c.bit < BLOCK_BITS
    ensures Draw(g, c, n, acc) == Shl(acc, n) + StreamValue(g, c, n)
    decreases n
  {
    if n > 0 {
      var b := BitValue(g, c);
      DrawAcc(g, Next(c), n - 1, 2 * acc + b);
      DrawAcc(g, Next(c), n - 1, b);
      ShlAdd(2 * acc, b, n - 1);
      ShlDouble(acc, n - 1);
    } else {
      assert Draw(g, c, 0, 0) == 0;
    }
  }

  /** `n` bits make a number below 2^n. */
  lemma {:induction false} DrawBound(g: Chain, c: Cursor, n: nat, acc: nat)
    requires c.bit < BLOCK_BITS
    ensures Draw(g, c, n, acc) < (acc + 1) * Pow2(n)
    decreases n
  {
    if n > 0 {
      DrawBound(g, Next(c), n - 1, 2 * acc + BitValue(g, c));
    }
  }

  lemma StreamValueBound(g: Chain, c: Cursor, n: nat)
    requires c.bit < BLOCK_BITS
    ensures StreamValue(g, c, n) < Pow2(n)
  {
    DrawBound(g, c, n, 0);
  }

  /** Reading `a` bits and then `b` more is one read of `a + b` bits. */
  lemma {:induction false} DrawSkip(g: Chain, c: Cursor, a: nat, b: nat, acc: nat)
    requires c.bit < BLOCK_BITS
    ensures Draw(g, c, a + b, acc) == Draw(g, Skip(c, a), b, Draw(g, c, a, acc))
    decreases a
  {
    if a > 0 {
      DrawSkip(g, Next(c), a - 1, b, 2 * acc + BitValue(g, c));
    }
  }

  /** Two reads joined as `(x << b) + y` are one read of `a + b` bits. */
  lemma StreamValueSplit(g: Chain, c: Cursor, a: nat, b: nat)
    requires c.bit < BLOCK_BITS
    ensures StreamValue(g, c, a + b) == Shl(StreamValue(g, c, a), b) + StreamValue(g, Skip(c, a), b)
  {
    DrawSkip(g, c, a, b, 0);
    DrawAcc(g, Skip(c, a), b, StreamValue(g, c, a));
  }

  /** Skipping `a` bits and then `b` is skipping `a + b`. */
  lemma {:induction false} SkipAdd(c: Cursor, a: nat, b: nat)
    requires c.bit < BLOCK_BITS
    ensures Skip(Skip(c, a), b) == Skip(c, a + b)
    decreases a
  {
    if a > 0 {
      SkipAdd(Next(c), a - 1, b);
    }
  }

  /**
   * A read of `n` bits leaves the bit position at `(bit + n) % 256` and moves on one block
   * per 256 bits crossed: a new block is made exactly when the old one is used up.
   */
  lemma {:induction false} SkipArith(c: Cursor, n: nat)
    requires c.bit < BLOCK_BITS
    ensures Skip(c, n) == Cursor(c.block + (c.bit + n) / BLOCK_BITS, (c.bit + n) % BLOCK_BITS)
    decreases n
  {
    if n > 0 {
      SkipArith(Next(c), n - 1);
      var q := (c.bit + n) / BLOCK_BITS;
      var r := (c.bit + n) % BLOCK_BITS;
      if c.bit + 1 == BLOCK_BITS {
        DivModUnique(n - 1, BLOCK_BITS, q - 1, r);
      } else {
        DivModUnique(c.bit + 1 + (n - 1), BLOCK_BITS, q, r);
      }
    }
  }

  /** The first `m` bits read from the start of byte `q` of a block are the top `m` bits of that byte. */
  lemma {:induction false} BytePrefix(g: Chain, b: nat, q: nat, m: nat)
    requires q < PRF_SIZE && m <= 8
    ensures StreamValue(g, Cursor(b, 8 * q), m) == Shr(BlockAt(g, b)[q], 8 - m)
    decreases m
  {
    var c := Cursor(b, 8 * q);
    var x := BlockAt(g, b)[q];
    if m == 0 {
      assert Pow2(8) == 256;
      ShrSmall(x, 8);
    } else {
      BytePrefix(g, b, q, m - 1);
      SkipArith(c, m - 1);
      DrawSkip(g, c, m - 1, 1, 0);
      BitInByte(g, b, q, m - 1);
      ShrStep(x, 8 - m);
    }
  }

  /** Bit `j` of byte `q` in the stream is bit `7 - j` of the byte: bytes are read high bit first. */
  lemma BitInByte(g: Chain, b: nat, q: nat, j: nat)
    requires q < PRF_SIZE && j < 8
    ensures BitValue(g, Cursor(b, 8 * q + j)) == Shr(BlockAt(g, b)[q], 7 - j) % 2
  {
    assert (8 * q + j) / 8 == q && (8 * q + j) % 8 == j;
    BitOfShr(BlockAt(g, b)[q], 7 - j);
  }

  /** Bits are served most significant first: the 8 bits from a byte boundary are that byte. */
  lemma StreamValueByte(g: Chain, b: nat, q: nat)
    requires q < PRF_SIZE
    ensures StreamValue(g, Cursor(b, 8 * q), 8) == BlockAt(g, b)[q]
  {
    BytePrefix(g, b, q, 8);
  }

  /** `nextDouble` from `c`: the next 53 bits over 2^53. */
  function NextDoubleSpec(g: Chain, c: Cursor): real
    requires c.bit < BLOCK_BITS
  {
    StreamValue(g, c, 53) as real / TWO_53 as real
  }

  /** The numerator has 53 bits, so the double is in [0,1). */
  lemma NextDoubleInUnit(g: Chain, c: Cursor)
    requires c.bit < BLOCK_BITS
    ensures 0.0 <= NextDoubleSpec(g, c) < 1.0
  {
    StreamValueBound(g, c, 53);
    Pow2Table();
    RealDivBelowOne(StreamValue(g, c, 53), TWO_53);
  }

  /** Where round `k` of the rejection loop of `nextInt`, started at `c`, reads. */
  function Round(c: Cursor, k: nat): Cursor
    requires c.bit < BLOCK_BITS
  {
    Skip(c, 31 * k)
  }

  /** Each round reads the 31 bits after the previous one. */
  lemma RoundNext(c: Cursor, k: nat)
    requires c.bit < BLOCK_BITS
    ensures Round(c, k + 1) == Skip(Round(c, k), 31)
  {
    SkipAdd(c, 31 * k, 31);
    assert 31 * k + 31 == 31 * (k + 1);
  }

  /** The loop test `bits - val + (n-1) < 0`, on `int`, for the draw at `c`. */
  predicate Rejected(g: Chain, c: Cursor, n: int)
    requires c.bit < BLOCK_BITS && n > 0
  {
    var b := StreamValue(g, c, 31);
    Overflows(b, Rem(b, n), n)
  }

  /** The loop test `bits - val + (n-1) < 0` on `int`. */
  predicate Overflows(b: int, v: int, n: int) {
    Wrap32(b - v + (n - 1)) < 0
  }

  /** The rejection test is the `int` overflow of `bits - val + (n-1)`, i.e. an incomplete last bucket. */
  lemma RejectTestIsOverflow(b: int, n: int)
    requires 0 <= b < TWO_31 && n > 0 && IsInt32(n)
    ensures Overflows(b, Rem(b, n), n) <==> b - Rem(b, n) + n > TWO_31
  {
    var x := b - Rem(b, n) + (n - 1);
    assert 0 <= x < TWO_32;
    if x > INT_MAX {
      assert Wrap32(x) == x - TWO_32;
    }
  }

  /** Round `k` is the first the loop accepts. */
  ghost predicate FirstAccepted(g: Chain, c: Cursor, n: int, k: nat)
    requires c.bit < BLOCK_BITS && n > 0
  {
    !Rejected(g, Round(c, k), n) && forall j :: 0 <= j < k ==> Rejected(g, Round(c, j), n)
  }

  /** One more rejected round extends the run of rejected rounds. */
  lemma RejectedThrough(g: Chain, c: Cursor, n: int, k: nat)
    requires c.bit < BLOCK_BITS && n > 0
    requires forall j :: 0 <= j < k ==> Rejected(g, Round(c, j), n)
    requires Rejected(g, Round(c, k), n)
    ensures forall j :: 0 <= j < k + 1 ==> Rejected(g, Round(c, j), n)
  {
  }

  /**
   * The loop of `nextInt(n)` ends from `c`. Whether it does depends on the HMAC output, so
   * it is a precondition of the method that runs it.
   */
  ghost predicate Terminates(g: Chain, c: Cursor, n: int)
    requires c.bit < BLOCK_BITS
  {
    n <= 0 || PowerOfTwo(n) || exists k: nat :: !Rejected(g, Round(c, k), n)
  }

  /**
   * Every rejection loop on the chain `g` for an `int` bound ends, wherever it starts. For a
   * bound above `INT_MAX` every round would be rejected, but `nextInt` takes an `int`. Whether
   * HMAC-SHA256 has this property is a hypothesis; the all-zero chain has it (`ZeroChainAccepts`).
   */
  ghost predicate Accepts(g: Chain) {
    forall c: Cursor, n: int {:trigger Terminates(g, c, n)} :: c.bit < BLOCK_BITS && IsInt32(n) ==> Terminates(g, c, n)
  }

  /** The chain every block of which is zero bytes. */
  function ZeroChain(): (g: Chain)
    ensures forall c, o :: g(c, o) == ZERO_BLOCK
  {
    (c, o) => ZERO_BLOCK
  }

  /** Every bit the all-zero chain yields is 0, so every draw from it is 0. */
  lemma {:induction false} ZeroDraw(g: Chain, c: Cursor, n: nat)
    requires c.bit < BLOCK_BITS && forall p, o :: g(p, o) == ZERO_BLOCK
    ensures StreamValue(g, c, n) == 0
    decreases n
  {
    if n > 0 {
      var i := c.block;
      assert BlockAt(g, i) == ZERO_BLOCK by {
        if i > 0 {
          assert BlockAt(g, i) == g(BlockAt(g, i - 1), Wrap32(i - 1));
        }
      }
      assert ZERO_BLOCK[c.bit / 8] == 0;
      BitOfZero(7 - c.bit % 8);
      ZeroDraw(g, Next(c), n - 1);
    }
  }

  /** On the all-zero chain the first round of every rejection loop is accepted. */
  lemma ZeroChainAccepts(g: Chain)
    requires forall p, o :: g(p, o) == ZERO_BLOCK
    ensures Accepts(g)
  {
    forall c: Cursor, n: int | c.bit < BLOCK_BITS && IsInt32(n)
      ensures Terminates(g, c, n)
    {
      if n > 0 && !PowerOfTwo(n) {
        assert Round(c, 0) == c;
        ZeroDraw(g, c, 31);
        assert !Rejected(g, Round(c, 0), n);
      }
    }
  }

  /**
   * `nextInt(n)` from `c` yields `r` and leaves the stream at `c2`: it throws for n <= 0
   * without drawing, scales one 31-bit draw for a power of two, and otherwise returns the
   * draw of the first accepted round modulo `n`.
   */
  ghost predicate NextIntOutcome(g: Chain, c: Cursor, n: int, r: Result<int, Exception>, c2: Cursor)
    requires c.bit < BLOCK_BITS
  {
    if n <= 0 then r == Failure(IllegalArgument) && c2 == c
    else if PowerOfTwo(n) then r == Success((n * StreamValue(g, c, 31)) / TWO_31) && c2 == Skip(c, 31)
    else exists k: nat :: AcceptedAt(g, c, n, k, r, c2)
  }

  /** Round `k` is the first accepted; its draw modulo `n` is the result and the stream ends after it. */
  ghost predicate AcceptedAt(g: Chain, c: Cursor, n: int, k: nat, r: Result<int, Exception>, c2: Cursor)
    requires c.bit < BLOCK_BITS && n > 0
  {
    FirstAccepted(g, c, n, k) && r == Success(Rem(StreamValue(g, Round(c, k), 31), n)) && c2 == Round(c, k + 1)
  }

  /** `nextInt(n)` throws exactly when n <= 0, and otherwise returns a value in [0,n). */
  lemma NextIntInRange(g: Chain, c: Cursor, n: int, r: Result<int, Exception>, c2: Cursor)
    requires c.bit < BLOCK_BITS && NextIntOutcome(g, c, n, r, c2)
    ensures r.Failure? <==> n <= 0
    ensures r.Success? ==> 0 <= r.value < n
  {
    if n > 0 && PowerOfTwo(n) {
      var b := StreamValue(g, c, 31);
      assert b < TWO_31 by {
        StreamValueBound(g, c, 31);
        Pow2Table();
      }
      ScaleBelow(n, b, TWO_31);
    }
  }

  /** At most one round is the first accepted. */
  lemma FirstAcceptedUnique(g: Chain, c: Cursor, n: int, k1: nat, k2: nat)
    requires c.bit < BLOCK_BITS && n > 0
    requires FirstAccepted(g, c, n, k1) && FirstAccepted(g, c, n, k2)
    ensures k1 == k2
  {
  }

  /** The outcome of `nextInt` is unique. */
  lemma NextIntUnique(g: Chain, c: Cursor, n: int, r1: Result<int, Exception>, c1: Cursor,
                      r2: Result<int, Exception>, c2: Cursor)
    requires c.bit < BLOCK_BITS
    requires NextIntOutcome(g, c, n, r1, c1) && NextIntOutcome(g, c, n, r2, c2)
    ensures r1 == r2 && c1 == c2
  {
    if n > 0 && !PowerOfTwo(n) {
      var k1: nat :| AcceptedAt(g, c, n, k1, r1, c1);
      var k2: nat :| AcceptedAt(g, c, n, k2, r2, c2);
      FirstAcceptedUnique(g, c, n, k1, k2);
    }
  }

  /** The pseudo-random key: HMAC-SHA512 keyed by the salt (or the default) over the data. */
  function ExtractSpec(xtr: Mac512, salt: Option<seq<byte>>, data: seq<byte>): Bytes64 {
    xtr(if salt.Some? then salt.value else DEFAULT_SALT, data)
  }

  /** `hmacExpand` keyed by the first 32 bytes of the pseudo-random key. */
  function KeyedExpand(hmac: Mac256, prk: Bytes64): (r: Expand)
    ensures forall msg :: r(msg) == hmac(prk[..PRF_SIZE], msg)
  {
    msg => hmac(prk[..PRF_SIZE], msg)
  }

  class HvacProvider {
    /** `hmacExpand`, already keyed. */
    const mac: Expand
    /** The block chain `hmacExpand` defines. */
    ghost const chain: Chain
    /** `Tbits`, a `BitSet` of size 256. */
    const bits: array<bool>
    var current: seq<byte>
    var offset: int
    var bitpos: nat
    /** How many times `nextT` has run: `Tcurrent` is T(blocks). */
    ghost var blocks: nat

    /** `Tcurrent` and `Toffset` follow the chain; `bitpos` may be 256 just before `nextT`. */
    ghost predicate Shaped()
      reads this
    {
      bits.Length == BLOCK_BITS && ChainsWith(chain, mac) &&
      current == BlockAt(chain, blocks) && offset == Wrap32(blocks)
    }

    ghost predicate Valid()
      reads this, bits
    {
      Shaped() && blocks >= 1 && bitpos < BLOCK_BITS &&
      forall k :: 0 <= k < BLOCK_BITS ==> bits[k] == Bit(current, k)
    }

    /** Where the stream stands: the next bit served is bit `bitpos` of T(blocks). */
    ghost function Here(): Cursor
      reads this
    {
      Cursor(blocks, bitpos)
    }

    /** The part of the constructor after the key is derived: T(0), then `nextT`. */
    constructor (mac: Expand)
      ensures Valid() && fresh(bits)
      ensures this.mac == mac && chain == ChainOf(mac)
      ensures Here() == Cursor(1, 0) && offset == 1
      ensures current == mac(ZERO_BLOCK + INFO + [0, 0, 0, 0])
    {
      this.mac := mac;
      chain := ChainOf(mac);
      bits := new bool[BLOCK_BITS];
      bitpos := 0;
      current := ZERO_BLOCK;
      offset := 0;
      blocks := 0;
      new;
      NextT();
      InitialBlock(chain, mac);
    }

    /** `SeedProviderHVAC(saltBytes, seedStream)`, with the stream's contents as `data`. */
    static method Create(xtr: Mac512, hmac: Mac256, salt: Option<seq<byte>>, data: seq<byte>)
      returns (r: Result<HvacProvider, Exception>)
      ensures r.Failure? <==> salt.Some? && |salt.value| != SALT_SIZE
      ensures r.Failure? ==> r.error == InvalidSalt
      ensures r.Success? ==> fresh(r.value) && fresh(r.value.bits) && r.value.Valid()
      ensures r.Success? ==> r.value.mac == KeyedExpand(hmac, ExtractSpec(xtr, salt, data))
      ensures r.Success? ==> r.value.chain == ChainOf(r.value.mac)
      ensures r.Success? ==> r.value.Here() == Cursor(1, 0) && r.value.offset == 1
    {
      if salt.Some? && |salt.value| != SALT_SIZE {
        return Failure(InvalidSalt);
      }
      var prk := ExtractSpec(xtr, salt, data);
      var p := new HvacProvider(KeyedExpand(hmac, prk));
      return Success(p);
    }

    /** The loop of `nextT` writing `(Toffset >> (j * 8)) & 0xFF` for j = 3 down to 0. */
    static method Counter(offset: int) returns (ctr: seq<byte>)
      ensures ctr == CounterBytes(offset)
    {
      ctr := [];
      var j: int := 3;
      while j >= 0
        invariant -1 <= j <= 3
        invariant ctr == CounterBytes(offset)[..3 - j]
      {
        ctr := ctr + [(Unsigned32(offset) / SHIFTS[j]) % 256];
        j := j - 1;
      }
    }

    /** The first half of `nextT`: hash `Tcurrent || INFO || counter` into the next block. */
    static method ExpandBlock(mac: Expand, ghost g: Chain, current: seq<byte>, offset: int)
      returns (next: Bytes32)
      requires ChainsWith(g, mac)
      ensures next == mac(current + INFO + CounterBytes(offset))
      ensures next == g(current, offset)
    {
      var ctr := Counter(offset);
      var inp := current + INFO + ctr;
      assert inp == ExpandInput(current, offset);
      next := mac(inp);
    }

    /** `nextT`: the next block, the counter advanced by one, `bits` refilled from the new block. */
    method NextT()
      requires Shaped()
      modifies this, bits
      ensures Valid() && blocks == old(blocks) + 1 && bitpos == 0
      ensures offset == Wrap32(old(offset) + 1)
    {
      current := ExpandBlock(mac, chain, current, offset);
      offset := Wrap32(offset + 1);
      Wrap32Add(blocks, 1);
      bitpos := 0;
      blocks := blocks + 1;
      FillBits();
    }

    /** The loops of `nextT` that set bit `i*8 + (7-j)` of `Tbits` to bit `j` of byte `i`. */
    method FillBits()
      requires bits.Length == BLOCK_BITS && |current| == PRF_SIZE
      modifies bits
      ensures forall k :: 0 <= k < BLOCK_BITS ==> bits[k] == Bit(current, k)
    {
      var i := 0;
      while i < PRF_SIZE
        invariant 0 <= i <= PRF_SIZE
        invariant forall k :: 0 <= k < 8 * i ==> bits[k] == Bit(current, k)
      {
        var b := current[i];
        var j := 7;
        while j >= 0
          invariant -1 <= j <= 7
          invariant forall k :: 0 <= k < 8 * i + (7 - j) ==> bits[k] == Bit(current, k)
        {
          var off := i * 8 + (7 - j);
          assert off / 8 == i && off % 8 == 7 - j;
          bits[off] := BitOf(b, j);
          j := j - 1;
        }
        i := i + 1;
      }
    }

    /**
     * One round of the loop of `nextBits`: read the bit at `Tbitpos`, step past it, and make
     * the next block once the 256 bits are used.
     */
    method ReadBit() returns (b1: nat)
      requires Valid()
      modifies this, bits
      ensures Valid()
      ensures b1 == BitValue(chain, old(Here())) && Here() == Next(old(Here()))
    {
      b1 := if bits[bitpos] then 1 else 0;
      bitpos := bitpos + 1;
      if bitpos == bits.Length {
        NextT();
      }
    }

    /**
     * `nextBits(n)`. `out |= b1 << i` is written as an addition: bit `i` of `out` is still
     * zero at that point, the bits set so far all being above it.
     */
    method NextBits(n: nat) returns (r: nat)
      requires Valid() && n <= 64
      modifies this, bits
      ensures Valid()
      ensures r == StreamValue(chain, old(Here()), n) && Here() == Skip(old(Here()), n)
    {
      ghost var c := Here();
      ghost var acc: nat := 0;
      r := 0;
      ShlZero(n);
      var i: int := n - 1;
      while i >= 0
        invariant -1 <= i < n
        invariant Valid()
        invariant Skip(Here(), i + 1) == Skip(c, n)
        invariant Draw(chain, Here(), i + 1, acc) == StreamValue(chain, c, n)
        invariant r == Shl(acc, i + 1)
      {
        var b1 := ReadBit();
        ShlDouble(acc, i);
        ShlAdd(2 * acc, b1, i);
        acc := 2 * acc + b1;
        r := r + Shl(b1, i);
        i := i - 1;
      }
    }

    /** `nextDouble`: the 26-bit and 27-bit draws joined as `(l0 << 27) + l1`, over 2^53. */
    method NextDouble() returns (d: real)
      requires Valid()
      modifies this, bits
      ensures Valid()
      ensures d == NextDoubleSpec(chain, old(Here())) && Here() == Skip(old(Here()), 53)
    {
      ghost var c := Here();
      var l0 := NextBits(26);
      var l1 := NextBits(27);
      StreamValueSplit(chain, c, 26, 27);
      SkipAdd(c, 26, 27);
      var num := Shl(l0, 27) + l1;
      assert num == StreamValue(chain, c, 53);
      d := num as real / TWO_53 as real;
    }

    /**
     * The rejection loop of `nextInt(n)` for an `n` that is not a power of two, run until
     * the first accepted round; `last` is a round known to be accepted and bounds the loop.
     */
    method RejectionLoop(n: int, ghost last: nat) returns (v: int, ghost k: nat)
      requires Valid() && IsInt32(n) && n > 0 && !Rejected(chain, Round(Here(), last), n)
      modifies this, bits
      ensures Valid() && old(Here()).bit < BLOCK_BITS
      ensures FirstAccepted(chain, old(Here()), n, k)
      ensures v == Rem(StreamValue(chain, Round(old(Here()), k), 31), n) && Here() == Round(old(Here()), k + 1)
    {
      ghost var c := Here();
      k := 0;
      var b := NextBits(31);
      v := Rem(b, n);
      RoundNext(c, 0);
      while Overflows(b, v, n)
        invariant Valid() && k <= last
        invariant Here() == Round(c, k + 1) && b == StreamValue(chain, Round(c, k), 31) && v == Rem(b, n)
        invariant forall j :: 0 <= j < k ==> Rejected(chain, Round(c, j), n)
        decreases last - k
      {
        assert Rejected(chain, Round(c, k), n);
        assert k < last;
        RejectedThrough(chain, c, n, k);
        k := k + 1;
        b := NextBits(31);
        v := Rem(b, n);
        RoundNext(c, k);
      }
    }

    /** `nextInt(n)`, throwing `IllegalArgumentException` for n <= 0. */
    method NextInt(n: int) returns (r: Result<int, Exception>)
      requires Valid() && IsInt32(n) && Terminates(chain, Here(), n)
      modifies this, bits
      ensures Valid()
      ensures NextIntOutcome(chain, old(Here()), n, r, Here())
    {
      if n <= 0 {
        return Failure(IllegalArgument);
      }
      if PowerOfTwo(n) {
        var b := NextBits(31);
        return Success((n * b) / TWO_31);
      }
      ghost var c := Here();
      ghost var last: nat :| !Rejected(chain, Round(c, last), n);
      var v, k := RejectionLoop(n, last);
      r := Success(v);
      assert AcceptedAt(chain, c, n, k, r, Here());
    }
  }
}
