/**
 * The weighted random walk of src/vash/Tree.java as values: the candidate list of each
 * level, the totals the constructor precomputes, and the candidate `_selectOp` picks for a
 * scaled draw.
 */
module TreeWalk {
  import opened Operations
  import opened TreeParams
  import opened Wrappers
  import Seeds
  import Factory

  /** `concat`: a copy of `first` with `second` after it. */
  function Concat<T>(first: seq<T>, second: seq<T>): (r: seq<T>)
    ensures |r| == |first| + |second|
    ensures r[..|first|] == first && r[|first|..] == second
  {
    first + second
  }

  const NODES_AND_LEAFS: seq<Operation> := Concat(NODES, LEAFS)

  /** The candidate list of a level, tested in `_selectOp`'s order. */
  function Candidates(level: int, minDepth: int, maxDepth: int): seq<Operation> {
    if level == 0 then TOPS
    else if level <= minDepth then NODES
    else if level >= maxDepth then LEAFS
    else NODES_AND_LEAFS
  }

  /**
   * With the depth bounds every table sets, the root is the only `RGB_Space`, every node at a
   * level up to the minimum depth has children, and every node at the maximum depth is a leaf.
   */
  lemma CandidateClasses(level: nat, op: Operation, a: Seeds.Algorithm)
    requires op in Candidates(level, MIN_DEPTH, MAX_DEPTH)
    ensures Factory.ClassFor(op, a) == RGBSpace <==> level == 0
    ensures 0 < level <= MIN_DEPTH ==> Arity(Factory.ClassFor(op, a)) > 0
    ensures level >= MAX_DEPTH ==> Arity(Factory.ClassFor(op, a)) == 0
  {
    Factory.ListsByArity(op, a);
    if level > MIN_DEPTH && level < MAX_DEPTH {
      assert op in NODES || op in LEAFS by {
        assert NODES_AND_LEAFS == NODES + LEAFS;
      }
    }
  }

  /** The sum of the ratios of a concatenation. */
  lemma {:induction false} SumParamsConcat(a: Seeds.Algorithm, xs: seq<Operation>, ys: seq<Operation>, i: nat)
    requires i <= |xs|
    ensures SumParams(a, xs + ys, i) == SumParams(a, xs, i) + SumParams(a, ys, 0)
    decreases |xs| - i
  {
    if i < |xs| {
      SumParamsConcat(a, xs, ys, i + 1);
    } else {
      SumParamsShift(a, xs, ys, 0);
    }
  }

  lemma {:induction false} SumParamsShift(a: Seeds.Algorithm, xs: seq<Operation>, ys: seq<Operation>, j: nat)
    requires j <= |ys|
    ensures SumParams(a, xs + ys, |xs| + j) == SumParams(a, ys, j)
    decreases |ys| - j
  {
    if j < |ys| {
      SumParamsShift(a, xs, ys, j + 1);
    }
  }

  /** `TOPS_total`, `NODES_total`, `LEAFS_total` and `NODES_AND_LEAFS_total`. */
  datatype Totals = Totals(tops: real, nodes: real, leafs: real, nodesAndLeafs: real)

  /**
   * The totals the constructor computes for each algorithm's table: 1.0, 5.6 and 7.5 for "1"
   * and "1-fast", 1.0, 4.4 and 9.5 for "1.1", and the joint one the sum of the two it joins.
   */
  function TotalsOf(a: Seeds.Algorithm): Totals {
    if a == Seeds.OnePointOne then Totals(1.0, 4.4, 9.5, 13.9) else Totals(1.0, 5.6, 7.5, 13.1)
  }

  /** The total `_selectOp` scales its draw by, chosen by the same tests as the list. */
  function TotalFor(t: Totals, level: int, minDepth: int, maxDepth: int): real {
    if level == 0 then t.tops
    else if level <= minDepth then t.nodes
    else if level >= maxDepth then t.leafs
    else t.nodesAndLeafs
  }

  /** The total chosen for a level is the sum of the ratios of the list chosen for it, and is positive. */
  lemma TotalIsSum(a: Seeds.Algorithm, level: int, minDepth: int, maxDepth: int)
    ensures TotalFor(TotalsOf(a), level, minDepth, maxDepth) == SumParams(a, Candidates(level, minDepth, maxDepth), 0)
    ensures TotalFor(TotalsOf(a), level, minDepth, maxDepth) > 0.0
  {
    SumParamsConcat(a, NODES, LEAFS, 0);
    TotalsAreSums(a);
  }

  /** The totals are the sums of the ratios of the three lists, the joint one the sum of the other two. */
  lemma TotalsAreSums(a: Seeds.Algorithm)
    ensures var nodes := SumParams(a, NODES, 0);
      var leafs := SumParams(a, LEAFS, 0);
      TotalsOf(a) == Totals(SumParams(a, TOPS, 0), nodes, leafs, nodes + leafs)
  {
    TopsTotal(a);
    NodesTotals();
    LeafsTotals();
    if a == Seeds.OneFast {
      SharedSums(NODES, 0);
      SharedSums(LEAFS, 0);
    }
  }

  lemma {:induction false} SharedSums(ops: seq<Operation>, i: nat)
    ensures SumParams(Seeds.OneFast, ops, i) == SumParams(Seeds.One, ops, i)
    decreases |ops| - i
  {
    if i < |ops| {
      SharedTable(ops[i]);
      SharedSums(ops, i + 1);
    }
  }

  /** `pos` once the walk has added the ratio of `ops[k]`. */
  function Through(a: Seeds.Algorithm, ops: seq<Operation>, k: nat): real
    requires k < |ops|
  {
    (if k == 0 then 0.0 else Through(a, ops, k - 1)) + Params(a, ops[k]).ratio
  }

  /** `ops[k]` is the first candidate whose running sum exceeds `rand`. */
  ghost predicate FirstPast(a: Seeds.Algorithm, ops: seq<Operation>, rand: real, k: int) {
    0 <= k < |ops| && Through(a, ops, k) > rand &&
    forall j :: 0 <= j < k ==> Through(a, ops, j) <= rand
  }

  /** At most one candidate is the first to pass `rand`. */
  lemma FirstPastUnique(a: Seeds.Algorithm, ops: seq<Operation>, rand: real, k: int, k': int)
    requires FirstPast(a, ops, rand, k) && FirstPast(a, ops, rand, k')
    ensures k == k'
  {
  }

  /** The candidate `_selectOp` returns for `rand`, or none when the walk runs off the end. */
  ghost function Pick(a: Seeds.Algorithm, ops: seq<Operation>, rand: real): Option<Operation> {
    if exists k :: FirstPast(a, ops, rand, k) then
      var k :| FirstPast(a, ops, rand, k);
      Some(ops[k])
    else
      None
  }

  /** The pick is `ops[k]` exactly when `ops[k]` is the first candidate to pass `rand`. */
  lemma PickIs(a: Seeds.Algorithm, ops: seq<Operation>, rand: real, k: int)
    requires FirstPast(a, ops, rand, k)
    ensures Pick(a, ops, rand) == Some(ops[k])
  {
    var k' :| FirstPast(a, ops, rand, k');
    FirstPastUnique(a, ops, rand, k, k');
  }

  /** Conversely, a picked candidate is the first to pass `rand`. */
  lemma PickedAt(a: Seeds.Algorithm, ops: seq<Operation>, rand: real) returns (k: int)
    requires Pick(a, ops, rand).Some?
    ensures FirstPast(a, ops, rand, k) && ops[k] == Pick(a, ops, rand).value
  {
    k :| FirstPast(a, ops, rand, k);
    PickIs(a, ops, rand, k);
  }

  /** The walk runs off the end exactly when no running sum exceeds `rand`, and otherwise picks a candidate. */
  lemma PickNone(a: Seeds.Algorithm, ops: seq<Operation>, rand: real)
    ensures Pick(a, ops, rand).None? <==> forall j :: 0 <= j < |ops| ==> Through(a, ops, j) <= rand
    ensures Pick(a, ops, rand).Some? ==> Pick(a, ops, rand).value in ops
  {
    if j :| 0 <= j < |ops| && Through(a, ops, j) > rand {
      var k := LeastPast(a, ops, rand, j);
      PickIs(a, ops, rand, k);
    }
  }

  /** Some candidate is the first to pass `rand` as soon as any candidate passes it. */
  lemma {:induction false} LeastPast(a: Seeds.Algorithm, ops: seq<Operation>, rand: real, j: int) returns (k: int)
    requires 0 <= j < |ops| && Through(a, ops, j) > rand
    ensures FirstPast(a, ops, rand, k) && k <= j
    decreases j
  {
    if i :| 0 <= i < j && Through(a, ops, i) > rand {
      k := LeastPast(a, ops, rand, i);
    } else {
      k := j;
    }
  }

  /** The last running sum is the total of the list. */
  lemma {:induction false} ThroughIsSum(a: Seeds.Algorithm, ops: seq<Operation>, k: nat)
    requires k < |ops|
    ensures Through(a, ops, k) + SumParams(a, ops, k + 1) == SumParams(a, ops, 0)
    decreases k
  {
    if k > 0 {
      ThroughIsSum(a, ops, k - 1);
    }
  }

  /** For a non-negative `rand`, an operation whose ratio is zero is never picked. */
  lemma PickHasWeight(a: Seeds.Algorithm, ops: seq<Operation>, rand: real)
    requires rand >= 0.0
    ensures Pick(a, ops, rand).Some? ==> Params(a, Pick(a, ops, rand).value).ratio > 0.0
  {
    if exists k :: FirstPast(a, ops, rand, k) {
      var k :| FirstPast(a, ops, rand, k);
      PickIs(a, ops, rand, k);
      assert k > 0 ==> Through(a, ops, k - 1) <= rand;
    }
  }

  /** Below the total the walk always picks, so `_selectOp`'s closing throw is unreachable. */
  lemma PickBelowTotal(a: Seeds.Algorithm, ops: seq<Operation>, rand: real)
    requires 0.0 <= rand < SumParams(a, ops, 0)
    ensures Pick(a, ops, rand).Some?
  {
    PickNone(a, ops, rand);
    if |ops| > 0 {
      ThroughIsSum(a, ops, |ops| - 1);
    }
  }

  /**
   * The loop of `_selectOp` from candidate `i` on, `pos` being the ratios added so far: add
   * the candidate's ratio, and return the candidate once the sum exceeds `rand`.
   */
  function Walk(a: Seeds.Algorithm, ops: seq<Operation>, rand: real, i: nat, pos: real): Option<Operation>
    decreases |ops| - i
  {
    if i >= |ops| then None
    else if pos + Params(a, ops[i]).ratio > rand then Some(ops[i])
    else Walk(a, ops, rand, i + 1, pos + Params(a, ops[i]).ratio)
  }

  /** The walk from the first candidate returns exactly the first candidate whose running sum exceeds `rand`. */
  lemma WalkIsPick(a: Seeds.Algorithm, ops: seq<Operation>, rand: real)
    ensures Walk(a, ops, rand, 0, 0.0) == Pick(a, ops, rand)
  {
    WalkFrom(a, ops, rand, 0, 0.0);
  }

  lemma {:induction false} WalkFrom(a: Seeds.Algorithm, ops: seq<Operation>, rand: real, i: nat, pos: real)
    requires i <= |ops| && pos == (if i == 0 then 0.0 else Through(a, ops, i - 1))
    requires forall j :: 0 <= j < i ==> Through(a, ops, j) <= rand
    ensures Walk(a, ops, rand, i, pos) == Pick(a, ops, rand)
    decreases |ops| - i
  {
    if i == |ops| {
      PickNone(a, ops, rand);
    } else if pos + Params(a, ops[i]).ratio > rand {
      PickIs(a, ops, rand, i);
    } else {
      WalkFrom(a, ops, rand, i + 1, pos + Params(a, ops[i]).ratio);
    }
  }

  /** `nextDouble() * total`: the point of the walk's range that the draw selects. */
  function Scaled(u: real, total: real): real {
    u * total
  }

  /** A draw in [0,1) scaled by a positive total lies in [0, total). */
  lemma ScaledBelow(u: real, total: real)
    requires 0.0 <= u < 1.0 && total > 0.0
    ensures 0.0 <= Scaled(u, total) < total
  {
    assert (1.0 - u) * total > 0.0;
  }

  /**
   * For a draw in [0,1) the walk of every level picks a candidate, and never one of ratio
   * zero: `_selectOp`'s closing throw cannot be reached.
   */
  lemma PickAtLevel(a: Seeds.Algorithm, level: nat, u: real)
    requires 0.0 <= u < 1.0
    ensures var ops := Candidates(level, MIN_DEPTH, MAX_DEPTH);
      var p := Pick(a, ops, Scaled(u, TotalFor(TotalsOf(a), level, MIN_DEPTH, MAX_DEPTH)));
      p.Some? && p.value in ops && Params(a, p.value).ratio > 0.0
  {
    var total := TotalFor(TotalsOf(a), level, MIN_DEPTH, MAX_DEPTH);
    TotalIsSum(a, level, MIN_DEPTH, MAX_DEPTH);
    ScaledBelow(u, total);
    PickWithin(a, Candidates(level, MIN_DEPTH, MAX_DEPTH), total, Scaled(u, total));
  }

  /** Below a list's total, the walk picks one of its candidates, and one of positive ratio. */
  lemma PickWithin(a: Seeds.Algorithm, ops: seq<Operation>, total: real, rand: real)
    requires 0.0 <= rand < total && total == SumParams(a, ops, 0)
    ensures var p := Pick(a, ops, rand);
      p.Some? && p.value in ops && Params(a, p.value).ratio > 0.0
  {
    PickBelowTotal(a, ops, rand);
    PickHasWeight(a, ops, rand);
    PickNone(a, ops, rand);
  }
}
