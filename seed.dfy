/**
 * `Seed` (src/vash/Seed.java:197-369): the random source every draw of the image comes
 * from. The algorithm tag picks one of three backends, and every draw is counted in
 * `usedEntropy` (53 bits per double, 31 per int).
 *
 *   "1-fast"  MD5 of salt and data, six bytes of it seeding `java.util.Random`
 *   "1"       SHA-512 of salt and data, packed into sixteen words seeding `MersenneTwisterFast`
 *   "1.1"     the HVAC bit stream of module SeedHvac
 *
 * The digests and the two library generators are foreign code. They are given as
 * functions in `Primitives`; a library generator is modelled by its seed together with
 * the calls made on it so far, which determine everything it returns next.
 */
module Seeds {
  import opened Wrappers
  import opened Jvm
  import SeedHvac

  /** `Seed.SALT_SIZE`, the salt size for "1" and "1-fast". */
  const SALT_SIZE: nat := 64

  type Bytes16 = s: seq<byte> | |s| == 16 witness seq(16, _ => 0)

  /** The seed algorithms Vash knows. */
  datatype Algorithm = OneFast | One | OnePointOne

  /** The tag of each algorithm. */
  function Tag(a: Algorithm): string {
    match a
    case OneFast => "1-fast"
    case One => "1"
    case OnePointOne => "1.1"
  }

  /** The tag tests of the `Seed` constructor, in its order. */
  function AlgorithmOf(tag: string): (r: Result<Algorithm, Exception>)
    ensures r.Failure? ==> r.error == InvalidAlgorithm
  {
    if tag == "1-fast" then Success(OneFast)
    else if tag == "1" then Success(One)
    else if tag == "1.1" then Success(OnePointOne)
    else Failure(InvalidAlgorithm)
  }

  /** Exactly the three tags are known, and each names its own algorithm. */
  lemma AlgorithmOfTag(tag: string, a: Algorithm)
    ensures AlgorithmOf(Tag(a)) == Success(a)
    ensures AlgorithmOf(tag).Success? <==> tag == "1-fast" || tag == "1" || tag == "1.1"
    ensures AlgorithmOf(tag) == Success(a) ==> tag == Tag(a)
  {
  }

  /** `getSaltSizeForAlgorithm`. */
  function SaltSizeForAlgorithm(tag: string): (r: Result<int, Exception>)
    ensures r.Failure? <==> AlgorithmOf(tag).Failure?
    ensures r.Failure? ==> r.error == InvalidAlgorithm
    ensures r.Success? ==> r.value == SALT_SIZE && r.value == SeedHvac.SALT_SIZE
  {
    if tag == "1-fast" || tag == "1" then Success(SALT_SIZE)
    else if tag == "1.1" then Success(SeedHvac.SALT_SIZE)
    else Failure(InvalidAlgorithm)
  }

  /** A call made on a library generator. */
  datatype Call = DoubleCall | IntCall(bound: int)

  /** `new Random(seed)` after the calls `calls`. */
  datatype LcgState = LcgState(seed: nat, calls: seq<Call>)

  /** `new MersenneTwisterFast(key)` after the calls `calls`. */
  datatype TwisterState = TwisterState(key: seq<int>, calls: seq<Call>)

  /** The foreign code `Seed` relies on. */
  datatype Primitives = Primitives(
    md5: seq<int> -> Bytes16,
    sha512: seq<int> -> Bytes64,
    xtr: SeedHvac.Mac512,
    prf: SeedHvac.Mac256,
    lcgDouble: (nat, seq<Call>) -> real,
    lcgInt: (nat, seq<Call>, int) -> int,
    twisterDouble: (seq<int>, seq<Call>) -> real,
    twisterInt: (seq<int>, seq<Call>, int) -> int)

  type Bytes64 = SeedHvac.Bytes64

  /**
   * What the foreign code promises: library doubles are in [0,1) and `nextInt(n)` is in
   * [0,n) for n > 0, and every HVAC rejection loop for an `int` bound ends.
   */
  ghost predicate Promised(p: Primitives) {
    (forall s, h :: 0.0 <= p.lcgDouble(s, h) < 1.0) &&
    (forall s, h, n :: n > 0 ==> 0 <= p.lcgInt(s, h, n) < n) &&
    (forall k, h :: 0.0 <= p.twisterDouble(k, h) < 1.0) &&
    (forall k, h, n :: n > 0 ==> 0 <= p.twisterInt(k, h, n) < n) &&
    (forall prk: Bytes64 :: SeedHvac.Accepts(SeedHvac.ChainOf(SeedHvac.KeyedExpand(p.prf, prk))))
  }

  /** Primitives that return zero everywhere: digests and MACs of zero bytes, generators that yield 0. */
  function ZeroPrimitives(): Primitives {
    Primitives(
      _ => seq(16, _ => 0), _ => seq(64, _ => 0), (_, _) => seq(64, _ => 0), (_, _) => SeedHvac.ZERO_BLOCK,
      (_, _) => 0.0, (_, _, _) => 0, (_, _) => 0.0, (_, _, _) => 0)
  }

  /** The promises can all be kept at once: the zero primitives keep them. */
  lemma PromisedSatisfiable()
    ensures Promised(ZeroPrimitives())
  {
    var p := ZeroPrimitives();
    forall prk: Bytes64
      ensures SeedHvac.Accepts(SeedHvac.ChainOf(SeedHvac.KeyedExpand(p.prf, prk)))
    {
      SeedHvac.ZeroChainAccepts(SeedHvac.ChainOf(SeedHvac.KeyedExpand(p.prf, prk)));
    }
  }

  /**
   * `init1Fast`'s seed `(base[0] & 0xFF) << 40 | ... | base[5] & 0xFF`; the shifted bytes
   * do not overlap, so each `|` adds.
   */
  function LcgSeed(base: Bytes16): (r: nat)
    ensures r < 0x1_0000_0000_0000
  {
    base[0] as int * 0x100_0000_0000 + base[1] as int * 0x1_0000_0000 + base[2] as int * 0x100_0000 +
    base[3] as int * 0x1_0000 + base[4] as int * 0x100 + base[5] as int
  }

  /** The LCG seed is digest bytes 0..5, most significant first. */
  lemma LcgSeedIsBigEndian(base: Bytes16)
    ensures LcgSeed(base) == BigEndian(base[..6])
  {
    var s := base[..6];
    assert s[..4] == base[..4];
    BigEndianFour(base[..4]);
    assert s[..5][..4] == s[..4] && s[..6][..5] == s[..5];
  }

  /**
   * Word `i` of `init1`'s key: `(base[4i] & 0xFF) << 24 | ... | base[4i+3] & 0xFF` on
   * `int`, so a top byte of 128 or more makes it negative.
   */
  function TwisterWord(base: Bytes64, i: nat): (r: int)
    requires i < 16
    ensures IsInt32(r)
  {
    Wrap32(base[4 * i] as int * 0x100_0000 + base[4 * i + 1] as int * 0x1_0000 +
           base[4 * i + 2] as int * 0x100 + base[4 * i + 3] as int)
  }

  /** The sixteen words `init1` seeds the twister with. */
  function TwisterKey(base: Bytes64): (r: seq<int>)
    ensures |r| == 16 && forall i :: 0 <= i < 16 ==> r[i] == TwisterWord(base, i)
  {
    seq(16, i requires 0 <= i < 16 => TwisterWord(base, i))
  }

  /** Word `i` holds digest bytes 4i..4i+3, most significant first. */
  lemma TwisterWordIsBigEndian(base: Bytes64, i: nat)
    requires i < 16
    ensures Unsigned32(TwisterWord(base, i)) == BigEndian(base[4 * i..4 * i + 4])
  {
    var s := base[4 * i..4 * i + 4];
    BigEndianFour(s);
    Unsigned32Wrap32(BigEndian(s));
  }

  /** Entropy counted for a run of draws: 53 per double, 31 per int. */
  datatype Draw = DrewDouble(d: real) | DrewInt(bound: int, v: int)

  function Entropy(log: seq<Draw>): nat {
    if |log| == 0 then 0
    else Entropy(log[..|log| - 1]) + (if log[|log| - 1].DrewDouble? then 53 else 31)
  }

  /** The count of a run is 53 per double and 31 per int drawn. */
  lemma {:induction false} EntropyCounts(log: seq<Draw>)
    ensures Entropy(log) == 53 * Doubles(log) + 31 * (|log| - Doubles(log))
  {
    if |log| > 0 {
      EntropyCounts(log[..|log| - 1]);
    }
  }

  /** Counting one more draw adds its bits, wrapping as an `int`. */
  lemma EntropyStep(log: seq<Draw>, d: Draw)
    ensures Wrap32(Entropy(log + [d])) == Wrap32(Wrap32(Entropy(log)) + (if d.DrewDouble? then 53 else 31))
  {
    assert (log + [d])[..|log|] == log;
    Wrap32Add(Entropy(log), if d.DrewDouble? then 53 else 31);
  }

  function Doubles(log: seq<Draw>): (r: nat)
    ensures r <= |log|
  {
    if |log| == 0 then 0
    else Doubles(log[..|log| - 1]) + (if log[|log| - 1].DrewDouble? then 1 else 0)
  }

  class Seed {
    const algorithm: string
    /** The algorithm `algorithm` names. */
    ghost const kind: Algorithm
    const prims: Primitives
    const hvac: SeedHvac.HvacProvider?
    var twister: Option<TwisterState>
    var lcg: Option<LcgState>
    var usedEntropy: int
    /** Every value handed out so far, in order. */
    ghost var log: seq<Draw>

    ghost function Footprint(): set<object>
      reads this
    {
      if hvac == null then {} else {hvac, hvac.bits}
    }

    /** The backend fields match the algorithm and `usedEntropy` counts the log, wrapping as an `int`. */
    ghost predicate Valid()
      reads this, Footprint()
    {
      Promised(prims) && AlgorithmOf(algorithm) == Success(kind) &&
      usedEntropy == Wrap32(Entropy(log)) && Backends(kind, hvac, twister, lcg)
    }

    /** Exactly the backend of the algorithm is present. */
    static ghost predicate Backends(kind: Algorithm, hvac: SeedHvac.HvacProvider?, twister: Option<TwisterState>,
                                    lcg: Option<LcgState>)
      reads if hvac == null then {} else {hvac, hvac.bits}
    {
      match kind
      case OneFast => hvac == null && twister.None? && lcg.Some?
      case One => hvac == null && twister.Some? && lcg.None?
      case OnePointOne =>
        hvac != null && twister.None? && lcg.None? && hvac.Valid() && SeedHvac.Accepts(hvac.chain)
    }

    constructor (algorithm: string, kind: Algorithm, prims: Primitives, hvac: SeedHvac.HvacProvider?,
                 twister: Option<TwisterState>, lcg: Option<LcgState>)
      requires Promised(prims) && AlgorithmOf(algorithm) == Success(kind) && Backends(kind, hvac, twister, lcg)
      ensures Valid()
      ensures this.algorithm == algorithm && this.kind == kind && this.prims == prims
      ensures this.hvac == hvac && this.twister == twister && this.lcg == lcg
      ensures usedEntropy == 0 && log == []
    {
      this.algorithm := algorithm;
      this.kind := kind;
      this.prims := prims;
      this.hvac := hvac;
      this.twister := twister;
      this.lcg := lcg;
      usedEntropy := 0;
      log := [];
    }

    /** The backend dispatch of `nextDouble`, before the draw is counted. */
    method BackendDouble() returns (d: real)
      requires Valid()
      modifies Footprint(), this`twister, this`lcg
      ensures Valid() && 0.0 <= d < 1.0
      ensures hvac != null ==>
        d == SeedHvac.NextDoubleSpec(hvac.chain, old(hvac.Here())) &&
        hvac.Here() == SeedHvac.Skip(old(hvac.Here()), 53) && twister == old(twister) && lcg == old(lcg)
      ensures hvac == null && old(twister).Some? ==>
        d == prims.twisterDouble(old(twister).value.key, old(twister).value.calls) &&
        twister == Some(TwisterState(old(twister).value.key, old(twister).value.calls + [DoubleCall])) &&
        lcg == old(lcg)
      ensures hvac == null && old(twister).None? ==>
        old(lcg).Some? && d == prims.lcgDouble(old(lcg).value.seed, old(lcg).value.calls) &&
        lcg == Some(LcgState(old(lcg).value.seed, old(lcg).value.calls + [DoubleCall])) &&
        twister == old(twister)
    {
      if hvac != null {
        d := hvac.NextDouble();
        SeedHvac.NextDoubleInUnit(hvac.chain, old(hvac.Here()));
      } else if twister.Some? {
        var t := twister.value;
        d := prims.twisterDouble(t.key, t.calls);
        twister := Some(TwisterState(t.key, t.calls + [DoubleCall]));
      } else {
        var g := lcg.value;
        d := prims.lcgDouble(g.seed, g.calls);
        lcg := Some(LcgState(g.seed, g.calls + [DoubleCall]));
      }
    }

    /**
     * `nextDouble`: the HVAC provider if there is one, else the twister, else the LCG; each
     * double counts 53 bits.
     */
    method NextDouble() returns (d: real)
      requires Valid()
      modifies this, Footprint()
      ensures Valid()
      ensures 0.0 <= d < 1.0
      ensures log == old(log) + [DrewDouble(d)]
      ensures usedEntropy == Wrap32(old(usedEntropy) + 53)
      ensures hvac != null ==>
        d == SeedHvac.NextDoubleSpec(hvac.chain, old(hvac.Here())) &&
        hvac.Here() == SeedHvac.Skip(old(hvac.Here()), 53) && twister == old(twister) && lcg == old(lcg)
      ensures hvac == null && old(twister).Some? ==>
        d == prims.twisterDouble(old(twister).value.key, old(twister).value.calls) &&
        twister == Some(TwisterState(old(twister).value.key, old(twister).value.calls + [DoubleCall])) &&
        lcg == old(lcg)
      ensures hvac == null && old(twister).None? ==>
        old(lcg).Some? && d == prims.lcgDouble(old(lcg).value.seed, old(lcg).value.calls) &&
        lcg == Some(LcgState(old(lcg).value.seed, old(lcg).value.calls + [DoubleCall])) &&
        twister == old(twister)
    {
      d := BackendDouble();
      Tally(DrewDouble(d), 53);
    }

    /**
     * `nextInt(n)`: the same precedence of backends; every backend throws
     * `IllegalArgumentException` for n <= 0, and then nothing is drawn or counted. Each int
     * counts 31 bits.
     */
    method NextInt(n: int) returns (r: Result<int, Exception>)
      requires Valid() && IsInt32(n)
      modifies this, Footprint()
      ensures Valid()
      ensures r.Failure? <==> n <= 0
      ensures r.Failure? ==> r.error == IllegalArgument && log == old(log) && usedEntropy == old(usedEntropy)
      ensures r.Success? ==> 0 <= r.value < n && log == old(log) + [DrewInt(n, r.value)]
      ensures r.Success? ==> usedEntropy == Wrap32(old(usedEntropy) + 31)
      ensures hvac != null ==>
        SeedHvac.NextIntOutcome(hvac.chain, old(hvac.Here()), n, r, hvac.Here()) &&
        twister == old(twister) && lcg == old(lcg)
      ensures hvac == null && old(twister).Some? && n > 0 ==>
        r.value == prims.twisterInt(old(twister).value.key, old(twister).value.calls, n) &&
        twister == Some(TwisterState(old(twister).value.key, old(twister).value.calls + [IntCall(n)])) &&
        lcg == old(lcg)
      ensures hvac == null && old(twister).None? && n > 0 ==>
        old(lcg).Some? && r.value == prims.lcgInt(old(lcg).value.seed, old(lcg).value.calls, n) &&
        lcg == Some(LcgState(old(lcg).value.seed, old(lcg).value.calls + [IntCall(n)])) &&
        twister == old(twister)
    {
      r := BackendInt(n);
      if r.Success? {
        Tally(DrewInt(n, r.value), 31);
      }
    }

    /** The bookkeeping after a draw: the log records it and `usedEntropy` grows by its bits, wrapping. */
    method Tally(ghost d: Draw, bits: int)
      requires Valid() && bits == (if d.DrewDouble? then 53 else 31)
      modifies this`log, this`usedEntropy
      ensures Valid() && log == old(log) + [d] && usedEntropy == Wrap32(old(usedEntropy) + bits)
    {
      EntropyStep(log, d);
      usedEntropy := Wrap32(usedEntropy + bits);
      log := log + [d];
    }

    /** The backend half of `nextInt`: the value drawn below `n`, or the rejection of a bound that is not positive. */
    method BackendInt(n: int) returns (r: Result<int, Exception>)
      requires Valid() && IsInt32(n)
      modifies Footprint(), this`twister, this`lcg
      ensures Valid()
      ensures r.Failure? <==> n <= 0
      ensures r.Failure? ==> r.error == IllegalArgument
      ensures r.Success? ==> 0 <= r.value < n
      ensures hvac != null ==>
        SeedHvac.NextIntOutcome(hvac.chain, old(hvac.Here()), n, r, hvac.Here()) &&
        twister == old(twister) && lcg == old(lcg)
      ensures hvac == null && old(twister).Some? && n > 0 ==>
        r.value == prims.twisterInt(old(twister).value.key, old(twister).value.calls, n) &&
        twister == Some(TwisterState(old(twister).value.key, old(twister).value.calls + [IntCall(n)])) &&
        lcg == old(lcg)
      ensures hvac == null && old(twister).None? && n > 0 ==>
        old(lcg).Some? && r.value == prims.lcgInt(old(lcg).value.seed, old(lcg).value.calls, n) &&
        lcg == Some(LcgState(old(lcg).value.seed, old(lcg).value.calls + [IntCall(n)])) &&
        twister == old(twister)
    {
      if hvac != null {
        assert SeedHvac.Terminates(hvac.chain, hvac.Here(), n);
        r := hvac.NextInt(n);
        SeedHvac.NextIntInRange(hvac.chain, old(hvac.Here()), n, r, hvac.Here());
      } else if n <= 0 {
        return Failure(IllegalArgument);
      } else if twister.Some? {
        var t := twister.value;
        r := Success(prims.twisterInt(t.key, t.calls, n));
        twister := Some(TwisterState(t.key, t.calls + [IntCall(n)]));
      } else {
        var g := lcg.value;
        r := Success(prims.lcgInt(g.seed, g.calls, n));
        lcg := Some(LcgState(g.seed, g.calls + [IntCall(n)]));
      }
    }

    /** `getBitsOfEntropyUsed`: 53 bits for every double and 31 for every int drawn, as an `int`. */
    function BitsOfEntropyUsed(): (r: int)
      reads this, Footprint()
      requires Valid()
      ensures r == Wrap32(53 * Doubles(log) + 31 * (|log| - Doubles(log)))
    {
      EntropyCounts(log);
      usedEntropy
    }

    /** `init1`'s loop packing the SHA-512 digest into sixteen words. */
    static method PackTwisterKey(base: Bytes64) returns (key: array<int>)
      ensures fresh(key) && key[..] == TwisterKey(base)
    {
      key := new int[16];
      var i := 0;
      while i < 16
        invariant 0 <= i <= 16
        invariant forall j :: 0 <= j < i ==> key[j] == TwisterWord(base, j)
      {
        key[i] := TwisterWord(base, i);
        i := i + 1;
      }
      assert key[..] == TwisterKey(base);
    }

    /** `init1Fast`: MD5 over the whole salt (if any) and the data, six bytes of it seeding the LCG. */
    static method Init1Fast(p: Primitives, salt: Option<seq<byte>>, data: seq<byte>) returns (lcg: LcgState)
      ensures lcg == LcgState(LcgSeed(p.md5((if salt.Some? then salt.value else []) + data)), [])
    {
      var base := p.md5((if salt.Some? then salt.value else []) + data);
      lcg := LcgState(LcgSeed(base), []);
    }

    /**
     * `init1`: SHA-512 over the first 64 salt bytes (if any) and the data, packed into the
     * twister's key. `MessageDigest.update(saltBytes, 0, 64)` rejects a shorter salt.
     */
    static method Init1(p: Primitives, salt: Option<seq<byte>>, data: seq<byte>)
      returns (r: Result<TwisterState, Exception>)
      ensures r.Failure? <==> salt.Some? && |salt.value| < SALT_SIZE
      ensures r.Failure? ==> r.error == IllegalArgument
      ensures r.Success? ==>
        r.value == TwisterState(TwisterKey(p.sha512((if salt.Some? then salt.value[..SALT_SIZE] else []) + data)), [])
    {
      if salt.Some? && |salt.value| < SALT_SIZE {
        return Failure(IllegalArgument);
      }
      var base := p.sha512((if salt.Some? then salt.value[..SALT_SIZE] else []) + data);
      var key := PackTwisterKey(base);
      return Success(TwisterState(key[..], []));
    }

    /** `new Seed(algorithm, saltBytes, dataStream)` with the stream's contents as `data`. */
    static method Create(p: Primitives, algorithm: string, salt: Option<seq<byte>>, data: seq<byte>)
      returns (r: Result<Seed, Exception>)
      requires Promised(p)
      ensures r.Failure? <==>
        AlgorithmOf(algorithm).Failure? ||
        (algorithm == "1" && salt.Some? && |salt.value| < SALT_SIZE) ||
        (algorithm == "1.1" && salt.Some? && |salt.value| != SeedHvac.SALT_SIZE)
      ensures r.Failure? && AlgorithmOf(algorithm).Failure? ==> r.error == InvalidAlgorithm
      ensures r.Failure? && algorithm == "1" ==> r.error == IllegalArgument
      ensures r.Failure? && algorithm == "1.1" ==> r.error == InvalidSalt
      ensures r.Success? ==> fresh(r.value) && r.value.Valid() && fresh(r.value.Footprint())
      ensures r.Success? ==> r.value.algorithm == algorithm && r.value.prims == p
      ensures r.Success? ==> r.value.usedEntropy == 0 && r.value.log == []
      ensures r.Success? && algorithm == "1-fast" ==>
        r.value.lcg == Some(LcgState(LcgSeed(p.md5((if salt.Some? then salt.value else []) + data)), []))
      ensures r.Success? && algorithm == "1" ==>
        r.value.twister == Some(TwisterState(TwisterKey(p.sha512((if salt.Some? then salt.value[..SALT_SIZE] else []) + data)), []))
      ensures r.Success? && algorithm == "1.1" ==>
        r.value.hvac.mac == SeedHvac.KeyedExpand(p.prf, SeedHvac.ExtractSpec(p.xtr, salt, data)) &&
        r.value.hvac.Here() == SeedHvac.Cursor(1, 0) && r.value.hvac.offset == 1
    {
      if algorithm == "1-fast" {
        var lcg := Init1Fast(p, salt, data);
        var s := new Seed(algorithm, OneFast, p, null, None, Some(lcg));
        return Success(s);
      } else if algorithm == "1" {
        var t := Init1(p, salt, data);
        if t.Failure? {
          return Failure(t.error);
        }
        var s := new Seed(algorithm, One, p, null, Some(t.value), None);
        return Success(s);
      } else if algorithm == "1.1" {
        var h := SeedHvac.HvacProvider.Create(p.xtr, p.prf, salt, data);
        if h.Failure? {
          return Failure(h.error);
        }
        var s := new Seed(algorithm, OnePointOne, p, h.value, None, None);
        return Success(s);
      } else {
        return Failure(InvalidAlgorithm);
      }
    }
  }

  /**
   * A seed exists for every requirement the members above make: over the zero primitives and
   * with no salt, each algorithm builds a valid seed, which draws a double in [0,1) and an int
   * below 10 and then counts 84 bits of entropy.
   */
  method ValidSeedsExist(algorithm: string, data: seq<byte>) returns (d: real, k: int, used: int)
    requires algorithm == "1" || algorithm == "1-fast" || algorithm == "1.1"
    ensures 0.0 <= d < 1.0 && 0 <= k < 10 && used == 84
  {
    PromisedSatisfiable();
    AlgorithmOfTag(algorithm, OnePointOne);
    var r := Seed.Create(ZeroPrimitives(), algorithm, None, data);
    var s := r.value;
    d := s.NextDouble();
    var i := s.NextInt(10);
    k := i.value;
    used := s.BitsOfEntropyUsed();
  }
}
