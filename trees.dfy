/**
 * `Tree` (src/vash/Tree.java): the totals of the candidate lists, the weighted walk that picks
 * each node's operation, the recursive builder, the channel helpers and the frame guard.
 */
module Trees {
  import opened Wrappers
  import opened Jvm
  import opened Operations
  import opened TreeParams
  import opened TreeWalk
  import opened TreeGrammar
  import opened Nodes
  import opened ImageParams
  import Seeds
  import Factory

  /**
   * The exclusion count `__getChannelExclusionCount` returns for `channels`, given the double
   * it draws when `channels` lies strictly between two whole numbers.
   */
  function Exclusions(channels: real, u: real): int {
    if channels <= 0.0 then 3
    else if channels < 1.0 then (if u > channels then 3 else 2)
    else if channels == 1.0 then 2
    else if channels < 2.0 then (if u > channels - 1.0 then 2 else 1)
    else if channels == 2.0 then 1
    else if channels < 3.0 then (if u > channels - 2.0 then 1 else 0)
    else 0
  }

  /** The channel counts for which `__getChannelExclusionCount` draws a double. */
  predicate DrawsForExclusion(channels: real) {
    0.0 < channels < 1.0 || 1.0 < channels < 2.0 || 2.0 < channels < 3.0
  }

  /**
   * Three channels less the exclusions is `channels` rounded: a whole count is kept exactly
   * (0 and 3 clamping what lies beyond), and a count between `n` and `n + 1` is rounded up
   * exactly when the draw does not exceed its fractional part.
   */
  lemma ExclusionsRound(channels: real, u: real, n: int)
    ensures 0 <= Exclusions(channels, u) <= 3
    ensures channels <= 0.0 ==> Exclusions(channels, u) == 3
    ensures channels >= 3.0 ==> Exclusions(channels, u) == 0
    ensures 0 <= n <= 3 && channels == n as real ==> Exclusions(channels, u) == 3 - n
    ensures 0 <= n < 3 && n as real < channels < (n + 1) as real ==>
      (Exclusions(channels, u) == 2 - n <==> u <= channels - n as real) &&
      (Exclusions(channels, u) == 3 - n <==> u > channels - n as real)
  {
  }

  /** Without a draw the count does not depend on the double. */
  lemma ExclusionsWithoutDraw(channels: real, u: real, u': real)
    requires !DrawsForExclusion(channels)
    ensures Exclusions(channels, u) == Exclusions(channels, u')
  {
  }

  /** For a draw in [0,1), more channels never exclude more. */
  lemma ExclusionsMonotone(c1: real, c2: real, u: real)
    requires c1 <= c2 && 0.0 <= u < 1.0
    ensures Exclusions(c2, u) <= Exclusions(c1, u)
  {
  }

  /** The mask `__buildChannelMask` returns for `count`, `k` being the index it draws for 1 and 2. */
  function MaskOf(count: int, k: int): (m: seq<bool>)
    requires 0 <= count <= 3
    ensures |m| == 3
  {
    seq(3, i => if count == 3 then true else if count == 2 then i != k else if count == 1 then i == k else false)
  }

  /** The channels a mask sets. */
  function CountTrue(m: seq<bool>): nat {
    if |m| == 0 then 0 else (if m[0] then 1 else 0) + CountTrue(m[1..])
  }

  /** A mask sets `count` channels: for 2 all but the drawn one, for 1 only the drawn one. */
  lemma MaskCounts(count: int, k: int)
    requires 0 <= count <= 3 && 0 <= k < 3
    ensures CountTrue(MaskOf(count, k)) == count
    ensures count == 2 ==> forall i :: 0 <= i < 3 ==> (MaskOf(count, k)[i] <==> i != k)
    ensures count == 1 ==> forall i :: 0 <= i < 3 ==> (MaskOf(count, k)[i] <==> i == k)
  {
    var m := MaskOf(count, k);
    assert CountTrue(m[2..]) == (if m[2] then 1 else 0) by {
      assert m[2..][1..] == [];
    }
    assert CountTrue(m[1..]) == (if m[1] then 1 else 0) + CountTrue(m[2..]) by {
      assert m[1..][1..] == m[2..];
    }
  }

  /** The log after one draw `x` and then the draws `t`, in a log that goes on from there. */
  lemma LogSlice(d0: seq<Seeds.Draw>, x: Seeds.Draw, t: seq<Seeds.Draw>, d: seq<Seeds.Draw>)
    requires Prefix(d0 + [x] + t, d)
    ensures |d0| + 1 + |t| <= |d| && d[|d0|] == x && d[|d0| + 1..|d0| + 1 + |t|] == t
  {
    assert (d0 + [x] + t)[|d0|] == x;
    forall p | 0 <= p < |t| ensures d[|d0| + 1 + p] == t[p] {
      assert (d0 + [x] + t)[|d0| + 1 + p] == t[p];
    }
  }

  /**
   * The draws `_buildNode` takes: the walk's draw choosing the class, the draws of its seed
   * constructor, then those of the children one level deeper. Together they grow the node.
   */
  lemma NodeGrows(c: Chooser, level: nat, d0: seq<Seeds.Draw>, x: Seeds.Draw, t: seq<Seeds.Draw>, d: seq<Seeds.Draw>,
                  k: NodeKind, params: seq<Values.Snapshot>, points: int, ms: seq<Expr>)
    requires c(level, x) == Some(k) && (Arity(k) > 0 ==> level < MAX_DEPTH)
    requires MadeFrom(k, params, points, t)
    requires Prefix(d0 + [x] + t, d)
    requires GrowKids(c, level + 1, Arity(k), d, |d0 + [x] + t|) == Some((ms, |d|))
    ensures Grow(c, level, d, |d0|) == Some((Expr(k, params, points, ms), |d|))
  {
    var e := Expr(k, params, points, ms);
    var n := SliceMade(d0, x, t, d, k, params, points);
    assert GrowKids(c, level + 1, Arity(e.kind), d, n) == Some((e.kids, |d|));
    GrowsInto(c, level, d, |d0|, e, |d|);
  }

  /** In the log, the draws after `x` are the ones the seed constructor of `k` made its parameters from. */
  lemma SliceMade(d0: seq<Seeds.Draw>, x: Seeds.Draw, t: seq<Seeds.Draw>, d: seq<Seeds.Draw>,
                  k: NodeKind, params: seq<Values.Snapshot>, points: int) returns (n: nat)
    requires MadeFrom(k, params, points, t) && Prefix(d0 + [x] + t, d)
    ensures n == |d0 + [x] + t| == |d0| + 1 + DrawCount(k) <= |d| && d[|d0|] == x
    ensures MadeFrom(k, params, points, d[|d0| + 1..n])
  {
    LogSlice(d0, x, t, d);
    n := |d0| + 1 + |t|;
    assert d[|d0| + 1..n] == t;
  }

  /** The walk over the level's list at a scaled draw in [0,1) finds a candidate: the one `Walk` gives. */
  lemma WalkSelects(a: Seeds.Algorithm, level: nat, u: real, ops: seq<Operation>, total: real, rand: real, found: Option<Operation>)
    requires 0.0 <= u < 1.0 && ops == Candidates(level, MIN_DEPTH, MAX_DEPTH)
    requires total == TotalFor(TotalsOf(a), level, MIN_DEPTH, MAX_DEPTH) && rand == Scaled(u, total)
    requires found == Walk(a, ops, rand, 0, 0.0)
    ensures found.Some? && found == Walk(a, ops, Scaled(u, total), 0, 0.0)
  {
    PickAtLevel(a, level, u);
    WalkIsPick(a, ops, rand);
  }

  class Tree {
    const params: TreeParameters
    /** `TOPS_total`, `NODES_total`, `LEAFS_total` and `NODES_AND_LEAFS_total`. */
    const totals: Totals
    const tree: OperationNode
    const values: ValueList
    var ip: ImageParameters?

    /**
     * The totals are the sums of the table's ratios, the root is a complete subtree grown by
     * the walk from level 0, which paints, and `values` holds its parameters in pre-order.
     */
    ghost predicate Valid()
      reads params, params.seed, params.seed.Footprint(), tree, tree.Repr, values, Targets(values.items)
    {
      Assembled(params, totals, tree, values) && this !in tree.Repr
    }

    /** The parts of a tree fit together, whichever object holds them. */
    static ghost predicate Assembled(p: TreeParameters, totals: Totals, root: OperationNode, list: ValueList)
      reads p, p.seed, p.seed.Footprint(), root, root.Repr, list, Targets(list.items)
    {
      p.Valid() && totals == TotalsOf(p.seed.kind) &&
      root.Valid() && root.Complete() && root.kind == RGBSpace &&
      Grown(ShapeRules(p.seed.kind), root.Model(), 0) && Paintable(root.Model()) &&
      list !in root.Repr && Snapshots(list.items) == PreOrder(root.Model())
    }

    /**
     * `Tree(params)`: the four totals, the root built at level 0 (always an `RGB_Space`, so the
     * cast to `ColorNode` holds), and the root's parameters collected in pre-order.
     */
    static method Create(p: TreeParameters) returns (tr: Tree)
      requires p.Valid()
      modifies p.seed, p.seed.Footprint()
      ensures fresh(tr) && tr.Valid() && tr.params == p && tr.ip == null
      ensures fresh(tr.tree.Repr) && fresh(tr.values)
      ensures Prefix(old(p.seed.log), p.seed.log)
      ensures Grow(Walker(p.seed.kind), 0, p.seed.log, |old(p.seed.log)|) == Some((tr.tree.Model(), |p.seed.log|))
    {
      var t := ComputeTotals(p);
      var root := BuildToplevel(p, t);
      var list := CollectValues(root);
      tr := new Tree(p, t, root, list);
    }

    /** The fields put in place once the parts are built. */
    constructor (p: TreeParameters, t: Totals, root: OperationNode, list: ValueList)
      requires Assembled(p, t, root, list)
      ensures Valid() && params == p && totals == t && tree == root && values == list && ip == null
    {
      TargetsAreValues(list.items);
      params, totals, tree, values, ip := p, t, root, list, null;
      new;
      assert Assembled(p, t, root, list);
    }

    /** The four totals of the constructor: the sums of the ratios of the three lists, and the joint one. */
    static method ComputeTotals(p: TreeParameters) returns (t: Totals)
      requires p.Valid()
      ensures t == TotalsOf(p.seed.kind)
    {
      var tops := TotalFreq(p, TOPS);
      var nodes := TotalFreq(p, NODES);
      var leafs := TotalFreq(p, LEAFS);
      TotalsAreSums(p.seed.kind);
      t := Totals(tops, nodes, leafs, nodes + leafs);
    }

    /** `_buildToplevel`: the tree built from level 0, an `RGB_Space` over colourless channels. */
    static method BuildToplevel(p: TreeParameters, totals: Totals) returns (root: OperationNode)
      requires p.Valid() && totals == TotalsOf(p.seed.kind)
      modifies p.seed, p.seed.Footprint()
      ensures p.Valid()
      ensures root.Valid() && root.Complete() && fresh(root.Repr) && root.kind == RGBSpace
      ensures Grown(ShapeRules(p.seed.kind), root.Model(), 0) && Paintable(root.Model())
      ensures Prefix(old(p.seed.log), p.seed.log)
      ensures Grow(Walker(p.seed.kind), 0, p.seed.log, |old(p.seed.log)|) == Some((root.Model(), |p.seed.log|))
    {
      ghost var d0 := p.seed.log;
      root := BuildNode(p, totals, 0);
      ghost var a := p.seed.kind;
      WalkerObeys(a);
      GrowIsGrown(ShapeRules(a), Walker(a), 0, p.seed.log, |d0|);
      HeadShape(a, root.kind, 0);
      GrownPaintable(a, root.Model());
    }

    /** The constructor's `getValues` walk: a new list of the tree's parameters in pre-order. */
    static method CollectValues(root: OperationNode) returns (list: ValueList)
      requires root.Valid() && root.Complete()
      ensures fresh(list) && list !in root.Repr && Snapshots(list.items) == PreOrder(root.Model())
    {
      list := new ValueList();
      root.AccumulateValues(list);
      assert list.items == root.AllValues();
      root.AccumulatedInPreOrder();
    }

    /** `setGenerationParameters`: the image parameters the next frames are computed for. */
    method SetGenerationParameters(ip: ImageParameters?)
      requires Valid()
      modifies this
      ensures Valid() && this.ip == ip
    {
      TargetsAreValues(values.items);
      assert this !in params.seed.Footprint();
      this.ip := ip;
    }

    /**
     * `generateCurrentFrame`: throws until image parameters are set, and otherwise paints the
     * tree. The grown root is an `RGB_Space` over colourless channels, so painting fails only
     * when the frame's byte count does not fit an `int`.
     */
    method GenerateCurrentFrame(f: Formula) returns (r: Result<array<byte>, Exception>)
      requires Valid()
      requires ip != null ==> ip.Valid() && tree.Apart(ip)
      modifies ip, if ip == null then {} else ip.pool
      ensures r.Failure? <==> ip == null || PixLength(ip.w, ip.h) != 3 * (ip.w * ip.h)
      ensures r.Failure? && ip == null ==> r.error == IllegalArgument
      ensures r.Failure? && ip != null ==>
                r.error == (if PixLength(ip.w, ip.h) < 0 then NegativeArraySize else IndexOutOfBounds)
      ensures r.Success? ==> fresh(r.value) && r.value[..] == Frame(f, old(tree.Model()), ip.X[..], ip.Y[..])
    {
      if ip == null {
        return Failure(IllegalArgument);
      }
      r := tree.Pixels(ip, f);
    }

    /** `_totalFreq`: the ratios of the list summed in order. */
    static method TotalFreq(p: TreeParameters, data: seq<Operation>) returns (sum: real)
      requires p.Valid()
      ensures sum == SumParams(p.seed.kind, data, 0)
    {
      sum := 0.0;
      var i := 0;
      while i < |data|
        invariant 0 <= i <= |data|
        invariant sum + SumParams(p.seed.kind, data, i) == SumParams(p.seed.kind, data, 0)
      {
        sum := sum + p.Ratio(data[i]);
        i := i + 1;
      }
    }

    /**
     * `_selectOp`: one double scaled by the level's total, then the walk over the level's
     * list. The closing throw cannot be reached: the scaled draw lies below the total.
     */
    static method SelectOp(p: TreeParameters, totals: Totals, level: nat) returns (r: Result<Operation, Exception>, ghost u: real)
      requires p.Valid() && totals == TotalsOf(p.seed.kind)
      modifies p.seed, p.seed.Footprint()
      ensures p.Valid()
      ensures 0.0 <= u < 1.0 && p.seed.log == old(p.seed.log) + [Seeds.DrewDouble(u)]
      ensures r.Success?
      ensures Some(r.value) == Walk(p.seed.kind, Candidates(level, MIN_DEPTH, MAX_DEPTH),
        Scaled(u, TotalFor(totals, level, MIN_DEPTH, MAX_DEPTH)), 0, 0.0)
    {
      ghost var a := p.seed.kind;
      var ops, total := ListFor(p, totals, level);
      var d := p.seed.NextDouble();
      u := d;
      var rand := Scaled(d, total);
      var found := WalkList(p, ops, rand);
      WalkSelects(a, level, u, ops, total, rand, found);
      r := if found.Some? then Success(found.value) else Failure(Runtime);
    }

    /** The list `_selectOp` walks at `level` and its precomputed total, by the depth tests in order. */
    static method ListFor(p: TreeParameters, totals: Totals, level: nat) returns (ops: seq<Operation>, total: real)
      requires p.Valid()
      ensures ops == Candidates(level, MIN_DEPTH, MAX_DEPTH) && total == TotalFor(totals, level, MIN_DEPTH, MAX_DEPTH)
    {
      if level == 0 {
        ops := TOPS;
        total := totals.tops;
      } else if level <= p.minDepth {
        ops := NODES;
        total := totals.nodes;
      } else if level >= p.maxDepth {
        ops := LEAFS;
        total := totals.leafs;
      } else {
        ops := NODES_AND_LEAFS;
        total := totals.nodesAndLeafs;
      }
    }

    /** The loop of `_selectOp`: the running sum of the ratios, up to the first candidate that passes `rand`. */
    static method WalkList(p: TreeParameters, ops: seq<Operation>, rand: real) returns (found: Option<Operation>)
      requires p.Valid()
      ensures found == Walk(p.seed.kind, ops, rand, 0, 0.0)
    {
      ghost var a := p.seed.kind;
      var pos := 0.0;
      found := None;
      var i := 0;
      while i < |ops| && found.None?
        invariant 0 <= i <= |ops|
        invariant found.None? ==> Walk(a, ops, rand, i, pos) == Walk(a, ops, rand, 0, 0.0)
        invariant found.Some? ==> found == Walk(a, ops, rand, 0, 0.0)
        decreases |ops| - i
      {
        pos := pos + p.Ratio(ops[i]);
        if pos > rand {
          found := Some(ops[i]);
        }
        i := i + 1;
      }
    }

    /** `_selectAndCreateOp`: the walk's operation built by the factory from the same seed. */
    static method SelectAndCreateOp(p: TreeParameters, totals: Totals, level: nat)
      returns (node: OperationNode, ghost u: real, ghost t: seq<Seeds.Draw>)
      requires p.Valid() && totals == TotalsOf(p.seed.kind)
      modifies p.seed, p.seed.Footprint()
      ensures p.Valid()
      ensures node.Valid() && node.Empty() && fresh(node.Repr)
      ensures p !in node.Repr && p.seed !in node.Repr && p.seed.Footprint() !! node.Repr
      ensures p.seed.log == old(p.seed.log) + [Seeds.DrewDouble(u)] + t
      ensures Chosen(p.seed.kind, level, Seeds.DrewDouble(u)) == Some(node.kind)
      ensures node.SeededBy(t)
    {
      var op;
      op, u := SelectOp(p, totals, level);
      ghost var mid := p.seed.log;
      node := Factory.CreateNode(op.value, p.seed);
      t := p.seed.log[|mid|..];
      assert p.seed.log == mid + t;
    }

    /**
     * `_buildNode`: the node the walk and the factory make at `level`, then its slots filled in
     * order, each with a subtree built one level deeper from the draws that follow. The tree
     * is the one the draws grow.
     */
    static method BuildNode(p: TreeParameters, totals: Totals, level: nat) returns (node: OperationNode)
      requires p.Valid() && totals == TotalsOf(p.seed.kind)
      modifies p.seed, p.seed.Footprint()
      decreases Budget(level), 3
      ensures p.Valid()
      ensures node.Valid() && node.Complete() && fresh(node.Repr)
      ensures Prefix(old(p.seed.log), p.seed.log)
      ensures Grow(Walker(p.seed.kind), level, p.seed.log, |old(p.seed.log)|) == Some((node.Model(), |p.seed.log|))
    {
      ghost var d0 := p.seed.log;
      ghost var u, t;
      node, u, t := SelectAndCreateOp(p, totals, level);
      ChosenOk(p.seed.kind, level, Seeds.DrewDouble(u));
      HeadShape(p.seed.kind, node.kind, level);
      ghost var made := node.Repr;
      label Made:
      FillNode(p, totals, node, level, d0, u, t);
      forall o | o in node.Repr
        ensures fresh(o)
      {
        if o !in made {
          assert !old@Made(allocated(o));
        }
      }
    }

    /** The rest of `_buildNode` once the node is made: its subtrees, built and placed in its slots. */
    static method FillNode(p: TreeParameters, totals: Totals, node: OperationNode, level: nat,
                           ghost d0: seq<Seeds.Draw>, ghost u: real, ghost t: seq<Seeds.Draw>)
      requires p.Valid() && totals == TotalsOf(p.seed.kind)
      requires node.Valid() && node.Empty() && p !in node.Repr && p.seed !in node.Repr && p.seed.Footprint() !! node.Repr
      requires p.seed.log == d0 + [Seeds.DrewDouble(u)] + t && node.SeededBy(t)
      requires Chosen(p.seed.kind, level, Seeds.DrewDouble(u)) == Some(node.kind)
      requires Arity(node.kind) > 0 ==> level < MAX_DEPTH
      modifies p.seed, p.seed.Footprint(), node, node.children
      decreases Budget(level), 2
      ensures p.Valid()
      ensures node.Valid() && node.Complete() && fresh(node.Repr - old(node.Repr))
      ensures Prefix(old(p.seed.log), p.seed.log)
      ensures Grow(Walker(p.seed.kind), level, p.seed.log, |d0|) == Some((node.Model(), |p.seed.log|))
    {
      ghost var params := Snapshots(node.values);
      assert MadeFrom(node.kind, params, node.points, t);
      TargetsAreValues(node.values);
      label Made:
      var kids;
      ghost var ms, owned;
      kids, ms, owned := BuildChildren(p, totals, level, node.ChildCount());
      SnapshotsKept@Made(node.values);
      AttachChildren(p, node, kids, ms, owned, level, d0, Seeds.DrewDouble(u), t, params);
    }

    /** The end of `_buildNode`: the built subtrees go into the node's slots, and the result is the grown tree. */
    static method AttachChildren(ghost p: TreeParameters, node: OperationNode, kids: seq<OperationNode>,
                                 ghost ms: seq<Expr>, ghost owned: set<object>, level: nat,
                                 ghost d0: seq<Seeds.Draw>, ghost x: Seeds.Draw, ghost t: seq<Seeds.Draw>,
                                 ghost params: seq<Values.Snapshot>)
      requires p.Valid() && node.Valid() && node.Empty() && |kids| == Arity(node.kind)
      requires CopiesWithin(kids, ms, owned) && node !in owned && (node.children != null ==> node.children !in owned)
      requires node !in p.seed.Footprint() && (node.children != null ==> node.children !in p.seed.Footprint())
      requires Snapshots(node.values) == params && MadeFrom(node.kind, params, node.points, t)
      requires Walker(p.seed.kind)(level, x) == Some(node.kind) && (Arity(node.kind) > 0 ==> level < MAX_DEPTH)
      requires Prefix(d0 + [x] + t, p.seed.log)
      requires GrowKids(Walker(p.seed.kind), level + 1, Arity(node.kind), p.seed.log, |d0 + [x] + t|) == Some((ms, |p.seed.log|))
      modifies node, node.children
      ensures p.Valid() && node.Valid() && node.Complete() && node.Repr <= old(node.Repr) + owned
      ensures Grow(Walker(p.seed.kind), level, p.seed.log, |d0|) == Some((node.Model(), |p.seed.log|))
    {
      label Built:
      PlaceChildren(node, kids, ms, owned);
      assert p.Valid();
      NodeGrows(Walker(p.seed.kind), level, d0, x, t, p.seed.log, node.kind, params, node.points, ms);
    }

    /**
     * The `setChild` calls of `_buildNode`'s loop: the node's slots, all empty, take the
     * complete subtrees built for them, and the node becomes the tree with their models.
     */
    static method PlaceChildren(node: OperationNode, kids: seq<OperationNode>, ghost ms: seq<Expr>, ghost owned: set<object>)
      requires node.Valid() && node.Empty() && |kids| == Arity(node.kind)
      requires CopiesWithin(kids, ms, owned)
      requires node !in owned && (node.children != null ==> node.children !in owned)
      modifies node, node.children
      ensures node.Valid() && node.Complete() && node.Repr <= old(node.Repr) + owned
      ensures node.Model() == Expr(node.kind, old(Snapshots(node.values)), node.points, ms)
    {
      TargetsAreValues(node.values);
      var _ := node.SetChildren(kids);
      assert node.children != null ==> node.children[..] == kids;
      CopiesFromWithin(kids, ms, owned);
      SnapshotsKept(node.values);
      SnapshotsFit(node.values, Shape(node.kind));
      CopiesWellFormed(kids, ms);
      node.SameModel(Expr(node.kind, Snapshots(node.values), node.points, ms), kids);
    }

    /** The loop of `_buildNode`: child `i` is the subtree built from the draws after the children before it. */
    static method BuildChildren(p: TreeParameters, totals: Totals, level: nat, n: nat)
      returns (kids: seq<OperationNode>, ghost ms: seq<Expr>, ghost owned: set<object>)
      requires p.Valid() && totals == TotalsOf(p.seed.kind) && (n > 0 ==> level < MAX_DEPTH)
      modifies p.seed, p.seed.Footprint()
      decreases Budget(level), 1
      ensures p.Valid()
      ensures |kids| == n && fresh(owned) && CopiesWithin(kids, ms, owned)
      ensures Prefix(old(p.seed.log), p.seed.log)
      ensures GrowKids(Walker(p.seed.kind), level + 1, n, p.seed.log, |old(p.seed.log)|) == Some((ms, |p.seed.log|))
    {
      ghost var c := Walker(p.seed.kind);
      ghost var d0 := p.seed.log;
      kids, ms, owned := [], [], {};
      var i := 0;
      while i < n
        invariant p.Valid() && Walker(p.seed.kind) == c
        invariant 0 <= i <= n && |kids| == i
        invariant fresh(owned) && CopiesWithin(kids, ms, owned)
        invariant p.seed !in owned && p.seed.Footprint() !! owned
        invariant Prefix(d0, p.seed.log)
        invariant GrowKids(c, level + 1, i, p.seed.log, |d0|) == Some((ms, |p.seed.log|))
      {
        var child := BuildNext(p, totals, level, i, d0, kids, ms, owned);
        kids, ms, owned := kids + [child], ms + [child.Model()], owned + child.Repr;
        i := i + 1;
      }
    }

    /** One turn of that loop: the next child, grown one level deeper from where the log stands. */
    static method BuildNext(p: TreeParameters, totals: Totals, level: nat, ghost i: nat, ghost d0: seq<Seeds.Draw>,
                            ghost kids: seq<OperationNode>, ghost ms: seq<Expr>, ghost owned: set<object>)
      returns (child: OperationNode)
      requires p.Valid() && totals == TotalsOf(p.seed.kind) && level < MAX_DEPTH
      requires CopiesWithin(kids, ms, owned) && p.seed !in owned && p.seed.Footprint() !! owned
      requires Prefix(d0, p.seed.log)
      requires GrowKids(Walker(p.seed.kind), level + 1, i, p.seed.log, |d0|) == Some((ms, |p.seed.log|))
      modifies p.seed, p.seed.Footprint()
      decreases Budget(level), 0
      ensures p.Valid() && child.Valid() && child.Complete() && fresh(child.Repr)
      ensures CopiesWithin(kids + [child], ms + [child.Model()], owned + child.Repr)
      ensures p.seed !in owned + child.Repr && p.seed.Footprint() !! owned + child.Repr
      ensures Prefix(d0, p.seed.log)
      ensures GrowKids(Walker(p.seed.kind), level + 1, i + 1, p.seed.log, |d0|) == Some((ms + [child.Model()], |p.seed.log|))
    {
      ghost var before, fp := p.seed.log, p.seed.Footprint();
      child := BuildNode(p, totals, level + 1);
      assert p.seed.hvac != null ==> p.seed.hvac !in child.Repr && p.seed.hvac.bits !in child.Repr;
      assert p.seed.Footprint() == fp && fp !! child.Repr;
      KidsGrowOn(Walker(p.seed.kind), level + 1, i, before, p.seed.log, |d0|, ms, child.Model());
      CopiesWithinSnoc(kids, ms, owned, child, child.Model());
    }

    /**
     * `__getChannelExclusionCount`: a whole channel count maps to its exclusions without a
     * draw; a count strictly between two whole numbers draws one double to round it.
     */
    static method ChannelExclusionCount(s: Seeds.Seed, channels: real) returns (r: int, ghost u: real)
      requires s.Valid()
      modifies s, s.Footprint()
      ensures s.Valid()
      ensures DrawsForExclusion(channels) ==> 0.0 <= u < 1.0 && s.log == old(s.log) + [Seeds.DrewDouble(u)]
      ensures !DrawsForExclusion(channels) ==> s.log == old(s.log)
      ensures r == Exclusions(channels, u)
    {
      u := 0.0;
      if channels <= 0.0 {
        r := 3;
      } else if channels > 0.0 && channels < 1.0 {
        var d := s.NextDouble();
        u := d;
        r := if d > channels then 3 else 2;
      } else if channels == 1.0 {
        r := 2;
      } else if channels > 1.0 && channels < 2.0 {
        var d := s.NextDouble();
        u := d;
        r := if d > channels - 1.0 then 2 else 1;
      } else if channels == 2.0 {
        r := 1;
      } else if channels > 2.0 && channels < 3.0 {
        var d := s.NextDouble();
        u := d;
        r := if d > channels - 2.0 then 1 else 0;
      } else {
        r := 0;
      }
    }

    /**
     * `__buildChannelMask`: all three channels for 3, none for 0; for 2 and 1 one `nextInt(3)`
     * picks the channel left out or the one kept; any other count throws.
     */
    static method BuildChannelMask(s: Seeds.Seed, count: int) returns (r: Result<array<bool>, Exception>, ghost k: int)
      requires s.Valid()
      modifies s, s.Footprint()
      ensures s.Valid()
      ensures r.Failure? <==> !(0 <= count <= 3)
      ensures r.Failure? ==> r.error == IllegalArgument
      ensures count == 1 || count == 2 ==> 0 <= k < 3 && s.log == old(s.log) + [Seeds.DrewInt(3, k)]
      ensures !(count == 1 || count == 2) ==> s.log == old(s.log)
      ensures r.Success? ==> fresh(r.value) && r.value[..] == MaskOf(count, k)
    {
      var pick := 0;
      k := pick;
      if !(0 <= count <= 3) {
        return Failure(IllegalArgument), k;
      }
      if count == 1 || count == 2 {
        var n := s.NextInt(3);
        pick := n.value;
        k := pick;
      }
      var m := Mask(count, pick);
      r := Success(m);
    }

    /** The arrays of `__buildChannelMask`'s switch, once the draw `k` is made where one is needed. */
    static method Mask(count: int, k: int) returns (m: array<bool>)
      requires 0 <= count <= 3 && 0 <= k < 3
      ensures fresh(m) && m[..] == MaskOf(count, k)
    {
      if count == 3 {
        m := Triple(true, true, true);
      } else if count == 2 {
        if k == 0 {
          m := Triple(false, true, true);
        } else if k == 1 {
          m := Triple(true, false, true);
        } else {
          m := Triple(true, true, false);
        }
      } else if count == 1 {
        if k == 0 {
          m := Triple(true, false, false);
        } else if k == 1 {
          m := Triple(false, true, false);
        } else {
          m := Triple(false, false, true);
        }
      } else {
        m := Triple(false, false, false);
      }
    }

    /** The array literal `new boolean[] {x, y, z}`. */
    static method Triple(x: bool, y: bool, z: bool) returns (a: array<bool>)
      ensures fresh(a) && a[..] == [x, y, z]
    {
      a := new bool[3];
      a[0], a[1], a[2] := x, y, z;
    }
  }

  /**
   * Trees exist for every requirement the members above make: over the zero primitives and with
   * no salt, each algorithm's parameters build a valid tree.
   */
  method ZeroTree(algorithm: string, data: seq<byte>) returns (tr: Tree)
    requires algorithm == "1" || algorithm == "1-fast" || algorithm == "1.1"
    ensures fresh(tr) && fresh(tr.tree.Repr) && tr.Valid() && tr.ip == null
  {
    Seeds.PromisedSatisfiable();
    Seeds.AlgorithmOfTag(algorithm, Seeds.OnePointOne);
    var p := TreeParameters.Create(Seeds.ZeroPrimitives(), algorithm, None, data);
    tr := Tree.Create(p.value);
  }

  /** Such a tree paints a 4x4 frame of 48 bytes. */
  method TreesExist(algorithm: string, data: seq<byte>, f: Formula) returns (frame: array<byte>)
    requires algorithm == "1" || algorithm == "1-fast" || algorithm == "1.1"
    ensures frame.Length == 48
  {
    var ip := new ImageParameters(4, 4);
    var tr := ZeroTree(algorithm, data);
    tr.SetGenerationParameters(ip);
    var r := tr.GenerateCurrentFrame(f);
    frame := r.value;
  }
}
