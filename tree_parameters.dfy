/**
 * `TreeParameters` (src/vash/TreeParameters.java): the seed, the depth bounds, and for every
 * operation its relative frequency ("ratio") and the channel count it may appear in.
 */
module TreeParams {
  import opened Wrappers
  import opened Jvm
  import opened Operations
  import Seeds
  import SeedHvac

  /** `OpParams`. */
  datatype OpParams = OpParams(ratio: real, channels: real)

  /** The one-argument `OpParams(ratio)`: channels default to 3. */
  function RatioOnly(ratio: real): (r: OpParams)
    ensures r.ratio == ratio && r.channels == 3.0
  {
    OpParams(ratio, 3.0)
  }

  const MIN_DEPTH: int := 2
  const MAX_DEPTH: int := 8

  /** The entry the constructor puts for each tag, per algorithm. */
  function Params(a: Seeds.Algorithm, op: Operation): OpParams {
    if a == Seeds.OnePointOne then
      match op
      case RGB => OpParams(1.0, 3.0)
      case ABSOLUTE => OpParams(0.2, 0.9)
      case ADD => OpParams(0.3, 3.0)
      case DIVIDE => OpParams(0.3, 3.0)
      case EXPONENTIATE => OpParams(0.5, 3.0)
      case INVERT => OpParams(0.1, 3.0)
      case MODULUS => OpParams(0.5, 3.0)
      case MULTIPLY => OpParams(0.3, 3.0)
      case SINC => OpParams(0.0, 0.0)
      case SINE => OpParams(0.0, 0.0)
      case SPIRAL => OpParams(0.2, 2.0)
      case SQUIRCLE => OpParams(2.0, 1.8)
      case CONST => OpParams(0.0, 0.0)
      case FLOWER => OpParams(3.5, 3.0)
      case GRADIENT_RADIAL => OpParams(1.0, 3.0)
      case ELLIPSE => OpParams(2.0, 3.0)
      case GRADIENT_LINEAR => OpParams(1.0, 3.0)
      case POLAR_THETA => OpParams(2.0, 3.0)
    else
      match op
      case RGB => RatioOnly(1.0)
      case ABSOLUTE | ADD | DIVIDE | EXPONENTIATE | INVERT | MODULUS | MULTIPLY => RatioOnly(0.5)
      case SINC | SINE => RatioOnly(0.0)
      case SPIRAL => RatioOnly(0.1)
      case SQUIRCLE => RatioOnly(2.0)
      case CONST => RatioOnly(0.0)
      case FLOWER => RatioOnly(3.5)
      case GRADIENT_RADIAL => RatioOnly(1.0)
      case ELLIPSE => RatioOnly(0.0)
      case GRADIENT_LINEAR => RatioOnly(1.0)
      case POLAR_THETA => RatioOnly(2.0)
  }

  /** The `ops` map holds exactly the entries of `Params` for the algorithm. */
  ghost predicate IsTable(ops: map<Operation, OpParams>, a: Seeds.Algorithm) {
    forall op: Operation :: op in ops && ops[op] == Params(a, op)
  }

  /** The sum of the ratios of a candidate list (`_totalFreq`). */
  function SumRatios(t: map<Operation, OpParams>, ops: seq<Operation>): real
    requires forall op :: op in ops ==> op in t
  {
    SumFrom(t, ops, 0)
  }

  /** The sum of the ratios of `ops[i..]`. */
  function SumFrom(t: map<Operation, OpParams>, ops: seq<Operation>, i: nat): real
    requires forall op :: op in ops ==> op in t
    decreases |ops| - i
  {
    if i >= |ops| then 0.0 else t[ops[i]].ratio + SumFrom(t, ops, i + 1)
  }

  /** Summing a concatenation, as `NODES_total + LEAFS_total` does for the joint list. */
  lemma SumConcat(t: map<Operation, OpParams>, a: seq<Operation>, b: seq<Operation>)
    requires forall op :: op in a + b ==> op in t
    ensures SumRatios(t, a + b) == SumRatios(t, a) + SumRatios(t, b)
  {
    SumConcatFrom(t, a, b, 0);
  }

  lemma {:induction false} SumConcatFrom(t: map<Operation, OpParams>, a: seq<Operation>, b: seq<Operation>, i: nat)
    requires forall op :: op in a + b ==> op in t
    requires i <= |a|
    ensures SumFrom(t, a + b, i) == SumFrom(t, a, i) + SumFrom(t, b, 0)
    decreases |a| - i
  {
    if i < |a| {
      SumConcatFrom(t, a, b, i + 1);
    } else {
      SumShift(t, a, b, 0);
    }
  }

  /** Past `a`, summing `a + b` is summing `b`. */
  lemma {:induction false} SumShift(t: map<Operation, OpParams>, a: seq<Operation>, b: seq<Operation>, j: nat)
    requires forall op :: op in a + b ==> op in t
    requires j <= |b|
    ensures SumFrom(t, a + b, |a| + j) == SumFrom(t, b, j)
    decreases |b| - j
  {
    if j < |b| {
      SumShift(t, a, b, j + 1);
    }
  }

  /** The sum of `Params(a, op).ratio` over `ops[i..]`. */
  function SumParams(a: Seeds.Algorithm, ops: seq<Operation>, i: nat): real
    decreases |ops| - i, a
  {
    if i >= |ops| then 0.0 else Params(a, ops[i]).ratio + SumParams(a, ops, i + 1)
  }

  /** Over a table, `_totalFreq` sums the algorithm's ratios. */
  lemma {:induction false} SumOfTable(t: map<Operation, OpParams>, a: Seeds.Algorithm, ops: seq<Operation>, i: nat)
    requires IsTable(t, a)
    ensures SumFrom(t, ops, i) == SumParams(a, ops, i)
    decreases |ops| - i
  {
    if i < |ops| {
      SumOfTable(t, a, ops, i + 1);
    }
  }

  /** Every ratio is non-negative and every channel count lies in [0,3]. */
  lemma Bounds(a: Seeds.Algorithm, op: Operation)
    ensures Params(a, op).ratio >= 0.0 && 0.0 <= Params(a, op).channels <= 3.0
  {
  }

  /** "1" and "1-fast" share one table, whose channels all default to 3. */
  lemma SharedTable(op: Operation)
    ensures Params(Seeds.OneFast, op) == Params(Seeds.One, op)
    ensures Params(Seeds.One, op).channels == 3.0
  {
  }

  /** The operations that can never be chosen. */
  lemma ZeroWeights(op: Operation)
    ensures Params(Seeds.One, op).ratio == 0.0 <==> op in {SINC, SINE, CONST, ELLIPSE}
    ensures Params(Seeds.OnePointOne, op).ratio == 0.0 <==> op in {SINC, SINE, CONST}
  {
  }

  /** `TOPS_total`: 1.0 for every algorithm. */
  lemma TopsTotal(a: Seeds.Algorithm)
    ensures SumParams(a, TOPS, 0) == 1.0
  {
  }

  /** `NODES_total`: 5.6 for "1" and "1-fast", 4.4 for "1.1". */
  lemma NodesTotals()
    ensures SumParams(Seeds.One, NODES, 0) == 5.6
    ensures SumParams(Seeds.OnePointOne, NODES, 0) == 4.4
  {
    assert SumParams(Seeds.One, NODES, 7) == 2.1;
    assert SumParams(Seeds.One, NODES, 4) == 3.6;
    assert SumParams(Seeds.OnePointOne, NODES, 7) == 2.2;
    assert SumParams(Seeds.OnePointOne, NODES, 4) == 3.5;
  }

  /** `LEAFS_total`: 7.5 for "1" and "1-fast", 9.5 for "1.1". */
  lemma LeafsTotals()
    ensures SumParams(Seeds.One, LEAFS, 0) == 7.5
    ensures SumParams(Seeds.OnePointOne, LEAFS, 0) == 9.5
  {
    assert SumParams(Seeds.One, LEAFS, 3) == 4.0;
    assert SumParams(Seeds.OnePointOne, LEAFS, 3) == 4.0;
  }

  class TreeParameters {
    const seed: Seeds.Seed
    const minDepth: int
    const maxDepth: int
    var ops: map<Operation, OpParams>

    ghost predicate Valid()
      reads this, seed, seed.Footprint()
    {
      seed.Valid() && minDepth == MIN_DEPTH && maxDepth == MAX_DEPTH && IsTable(ops, seed.kind)
    }

    /** The table-filling half of the three-argument constructor, for a seed that already accepted the tag. */
    constructor Fill(seed: Seeds.Seed)
      requires seed.Valid()
      ensures Valid() && this.seed == seed
    {
      this.seed := seed;
      minDepth := 2;
      maxDepth := 8;
      new;
      if seed.algorithm == "1" || seed.algorithm == "1-fast" {
        Seeds.AlgorithmOfTag(seed.algorithm, seed.kind);
        ops := PutsOne(seed.kind);
      } else {
        // The seed accepted the tag, so it is "1.1"; the constructor's trailing throw cannot be reached.
        Seeds.AlgorithmOfTag(seed.algorithm, seed.kind);
        ops := PutsOnePointOne();
      }
    }

    /** The puts of the "1" / "1-fast" branch, in the source's order. */
    static method PutsOne(ghost a: Seeds.Algorithm) returns (ops: map<Operation, OpParams>)
      requires a != Seeds.OnePointOne
      ensures IsTable(ops, a)
    {
      ops := map[];
      ops := ops[RGB := RatioOnly(1.0)];
      ops := ops[ABSOLUTE := RatioOnly(0.5)];
      ops := ops[ADD := RatioOnly(0.5)];
      ops := ops[DIVIDE := RatioOnly(0.5)];
      ops := ops[EXPONENTIATE := RatioOnly(0.5)];
      ops := ops[INVERT := RatioOnly(0.5)];
      ops := ops[MODULUS := RatioOnly(0.5)];
      ops := ops[MULTIPLY := RatioOnly(0.5)];
      ops := ops[SINC := RatioOnly(0.0)];
      ops := ops[SINE := RatioOnly(0.0)];
      ops := ops[SPIRAL := RatioOnly(0.1)];
      ops := ops[SQUIRCLE := RatioOnly(2.0)];
      ops := ops[CONST := RatioOnly(0.0)];
      ops := ops[FLOWER := RatioOnly(3.5)];
      ops := ops[GRADIENT_RADIAL := RatioOnly(1.0)];
      ops := ops[ELLIPSE := RatioOnly(0.0)];
      ops := ops[GRADIENT_LINEAR := RatioOnly(1.0)];
      ops := ops[POLAR_THETA := RatioOnly(2.0)];
      forall op: Operation
        ensures op in ops && ops[op] == Params(a, op)
      {
        match op {
          case RGB => case ABSOLUTE => case ADD => case DIVIDE => case EXPONENTIATE => case INVERT =>
          case MODULUS => case MULTIPLY => case SINC => case SINE => case SPIRAL => case SQUIRCLE =>
          case CONST => case ELLIPSE => case FLOWER => case GRADIENT_LINEAR => case GRADIENT_RADIAL =>
          case POLAR_THETA =>
        }
      }
    }

    /** The puts of the "1.1" branch, in the source's order. */
    static method PutsOnePointOne() returns (ops: map<Operation, OpParams>)
      ensures IsTable(ops, Seeds.OnePointOne)
    {
      ghost var a := Seeds.OnePointOne;
      ops := map[];
      ops := ops[RGB := OpParams(1.0, 3.0)];
      ops := ops[ABSOLUTE := OpParams(0.2, 0.9)];
      ops := ops[ADD := OpParams(0.3, 3.0)];
      ops := ops[DIVIDE := OpParams(0.3, 3.0)];
      ops := ops[EXPONENTIATE := OpParams(0.5, 3.0)];
      ops := ops[INVERT := OpParams(0.1, 3.0)];
      ops := ops[MODULUS := OpParams(0.5, 3.0)];
      ops := ops[MULTIPLY := OpParams(0.3, 3.0)];
      ops := ops[SINC := OpParams(0.0, 0.0)];
      ops := ops[SINE := OpParams(0.0, 0.0)];
      ops := ops[SPIRAL := OpParams(0.2, 2.0)];
      ops := ops[SQUIRCLE := OpParams(2.0, 1.8)];
      ops := ops[CONST := OpParams(0.0, 0.0)];
      ops := ops[FLOWER := OpParams(3.5, 3.0)];
      ops := ops[GRADIENT_RADIAL := OpParams(1.0, 3.0)];
      ops := ops[ELLIPSE := OpParams(2.0, 3.0)];
      ops := ops[GRADIENT_LINEAR := OpParams(1.0, 3.0)];
      ops := ops[POLAR_THETA := OpParams(2.0, 3.0)];
      forall op: Operation
        ensures op in ops && ops[op] == Params(a, op)
      {
        match op {
          case RGB => case ABSOLUTE => case ADD => case DIVIDE => case EXPONENTIATE => case INVERT =>
          case MODULUS => case MULTIPLY => case SINC => case SINE => case SPIRAL => case SQUIRCLE =>
          case CONST => case ELLIPSE => case FLOWER => case GRADIENT_LINEAR => case GRADIENT_RADIAL =>
          case POLAR_THETA =>
        }
      }
    }

    /**
     * `TreeParameters(algo, saltBytes, dataStream)`: the seed is built first, so an unknown
     * tag or a bad salt fails there, with the seed's exception.
     */
    static method Create(p: Seeds.Primitives, algo: string, salt: Option<seq<byte>>, data: seq<byte>)
      returns (r: Result<TreeParameters, Exception>)
      requires Seeds.Promised(p)
      ensures r.Failure? <==>
        Seeds.AlgorithmOf(algo).Failure? ||
        (algo == "1" && salt.Some? && |salt.value| < Seeds.SALT_SIZE) ||
        (algo == "1.1" && salt.Some? && |salt.value| != SeedHvac.SALT_SIZE)
      ensures r.Failure? && Seeds.AlgorithmOf(algo).Failure? ==> r.error == InvalidAlgorithm
      ensures r.Failure? && algo == "1" ==> r.error == IllegalArgument
      ensures r.Failure? && algo == "1.1" ==> r.error == InvalidSalt
      ensures r.Success? ==> fresh(r.value) && fresh(r.value.seed) && fresh(r.value.seed.Footprint()) && r.value.Valid()
      ensures r.Success? ==> r.value.seed.algorithm == algo && r.value.seed.prims == p
      ensures r.Success? ==> r.value.seed.log == [] && r.value.seed.usedEntropy == 0
    {
      var s := Seeds.Seed.Create(p, algo, salt, data);
      if s.Failure? {
        return Failure(s.error);
      }
      var tp := new TreeParameters.Fill(s.value);
      return Success(tp);
    }

    /** `getOperationRatio`: the lookup always finds an entry. */
    function Ratio(op: Operation): (r: real)
      requires Valid()
      reads this, seed, seed.Footprint()
      ensures r == Params(seed.kind, op).ratio && r >= 0.0
    {
      Bounds(seed.kind, op);
      ops[op].ratio
    }

    /** `getOperationChannels`: the lookup always finds an entry. */
    function Channels(op: Operation): (r: real)
      requires Valid()
      reads this, seed, seed.Footprint()
      ensures r == Params(seed.kind, op).channels && 0.0 <= r <= 3.0
    {
      Bounds(seed.kind, op);
      ops[op].channels
    }
  }
}
