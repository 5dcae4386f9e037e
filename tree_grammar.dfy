/**
 * The trees `_buildNode` grows, read off the seed's draws. Each node takes one double for
 * the walk of its level, then the draws of its class's seed constructor, then the draws of
 * its children in slot order, each grown one level deeper.
 */
module TreeGrammar {
  import opened Operations
  import opened TreeParams
  import opened TreeWalk
  import opened Wrappers
  import opened Nodes
  import Seeds
  import Factory
  import Values

  /** The levels left above the maximum depth. */
  function Budget(level: nat): nat {
    if level <= MAX_DEPTH then MAX_DEPTH - level else 0
  }

  /**
   * The shape rules of one node at `level`: its tag belongs to the level's list and has a
   * positive ratio, and its class is the one the factory builds for the tag.
   */
  ghost predicate HeadOk(a: Seeds.Algorithm, k: NodeKind, level: nat) {
    var op := Factory.TagOf(k);
    op in Candidates(level, MIN_DEPTH, MAX_DEPTH) && Params(a, op).ratio > 0.0 && Factory.ClassFor(op, a) == k
  }

  /** With the depth bounds every table sets, only the root is an `RGB_Space`, and the slots of a node follow its level. */
  lemma HeadShape(a: Seeds.Algorithm, k: NodeKind, level: nat)
    requires HeadOk(a, k, level)
    ensures k == RGBSpace <==> level == 0
    ensures 0 < level <= MIN_DEPTH ==> Arity(k) > 0
    ensures level >= MAX_DEPTH ==> Arity(k) == 0
  {
    CandidateClasses(level, Factory.TagOf(k), a);
  }

  /**
   * The class `_selectOp` and the factory build at `level` for the walk's draw `u`; none
   * unless `u` is a double in [0,1).
   */
  ghost function Chosen(a: Seeds.Algorithm, level: nat, u: Seeds.Draw): Option<NodeKind> {
    if !u.DrewDouble? || !(0.0 <= u.d < 1.0) then None
    else
      var rand := Scaled(u.d, TotalFor(TotalsOf(a), level, MIN_DEPTH, MAX_DEPTH));
      match Walk(a, Candidates(level, MIN_DEPTH, MAX_DEPTH), rand, 0, 0.0)
      case None => None
      case Some(op) => Some(Factory.ClassFor(op, a))
  }

  /** The walk picks a candidate of positive ratio, so the class built for it follows the shape rules. */
  lemma ChosenIsOk(a: Seeds.Algorithm, level: nat, u: real, op: Operation)
    requires 0.0 <= u < 1.0
    requires Walk(a, Candidates(level, MIN_DEPTH, MAX_DEPTH), Scaled(u, TotalFor(TotalsOf(a), level, MIN_DEPTH, MAX_DEPTH)), 0, 0.0) == Some(op)
    ensures HeadOk(a, Factory.ClassFor(op, a), level)
  {
    WalkIsPick(a, Candidates(level, MIN_DEPTH, MAX_DEPTH), Scaled(u, TotalFor(TotalsOf(a), level, MIN_DEPTH, MAX_DEPTH)));
    PickAtLevel(a, level, u);
    Factory.ClassAndTag(op, Factory.ClassFor(op, a), a);
  }

  /** Every class the walk chooses follows the shape rules of its level. */
  lemma ChosenOk(a: Seeds.Algorithm, level: nat, u: Seeds.Draw)
    ensures Chosen(a, level, u).Some? ==> HeadOk(a, Chosen(a, level, u).value, level)
  {
    if Chosen(a, level, u).Some? {
      var rand := Scaled(u.d, TotalFor(TotalsOf(a), level, MIN_DEPTH, MAX_DEPTH));
      ChosenIsOk(a, level, u.d, Walk(a, Candidates(level, MIN_DEPTH, MAX_DEPTH), rand, 0, 0.0).value);
    }
  }

  /** The draws `d[lo..hi]` are all doubles. */
  ghost predicate DoublesIn(d: seq<Seeds.Draw>, lo: nat, hi: nat) {
    hi <= |d| && forall p :: lo <= p < hi ==> d[p].DrewDouble?
  }

  /** The node a class's seed constructor makes from the draws at `lo` of `d`, over the children `kids`. */
  ghost function Built(k: NodeKind, d: seq<Seeds.Draw>, lo: nat, kids: seq<Expr>): Expr
    requires DoublesIn(d, lo, lo + DrawCount(k))
  {
    var own := d[lo..lo + DrawCount(k)];
    assert AllDoubles(own) by {
      forall p | 0 <= p < |own| ensures own[p].DrewDouble? {
        assert own[p] == d[lo + p];
      }
    }
    DrawCountOfShape(k);
    Expr(k, Drawn(Shape(k), own[..DrawsForAll(Shape(k))]), if k == Flower then PointsFrom(own[|own| - 1].d) else 0, kids)
  }

  /** How the builder picks the class of a node at a level from the draw of its walk. */
  type Chooser = (nat, Seeds.Draw) -> Option<NodeKind>

  /** The walk of `_selectOp` under the algorithm `a`, followed by the factory. */
  ghost function Walker(a: Seeds.Algorithm): Chooser {
    (level: nat, u: Seeds.Draw) => Chosen(a, level, u)
  }

  /**
   * The subtree grown at `level` from the draws of `d` at `i` on, with the position after the
   * last draw it takes; none when the draws run out or are not what the builder asks for (a
   * draw the chooser takes, doubles for the parameters). No node below the maximum depth has
   * children: the walk picks only leaves there.
   */
  ghost function Grow(c: Chooser, level: nat, d: seq<Seeds.Draw>, i: nat): (r: Option<(Expr, nat)>)
    decreases Budget(level), 1
    ensures r.Some? ==> i < r.value.1 <= |d|
  {
    if i >= |d| then None
    else
      match c(level, d[i])
      case None => None
      case Some(k) => GrowAt(c, level, d, i, k)
  }

  /** The subtree of class `k`, chosen by the draw at `i`, grown from the draws after it. */
  ghost function GrowAt(c: Chooser, level: nat, d: seq<Seeds.Draw>, i: nat, k: NodeKind): (r: Option<(Expr, nat)>)
    requires i < |d|
    decreases Budget(level), 0
    ensures r.Some? ==> i < r.value.1 <= |d|
  {
    var n := DrawCount(k);
    if !DoublesIn(d, i + 1, i + 1 + n) then None
    else
      var grown :=
        if Arity(k) == 0 then Some(([], i + 1 + n))
        else if level >= MAX_DEPTH then None
        else GrowKids(c, level + 1, Arity(k), d, i + 1 + n);
      match grown
      case None => None
      case Some(kids) => Some((Built(k, d, i + 1, kids.0), kids.1))
  }

  /** `count` sibling subtrees grown one after the other from the draws of `d` at `i` on. */
  ghost function GrowKids(c: Chooser, level: nat, count: nat, d: seq<Seeds.Draw>, i: nat): (r: Option<(seq<Expr>, nat)>)
    requires i <= |d|
    decreases Budget(level), 2, count
    ensures r.Some? ==> |r.value.0| == count && i <= r.value.1 <= |d|
  {
    if count == 0 then Some(([], i))
    else
      match GrowKids(c, level, count - 1, d, i)
      case None => None
      case Some(before) =>
        match Grow(c, level, d, before.1)
        case None => None
        case Some(last) => Some((before.0 + [last.0], last.1))
  }

  /** `d2` begins with `d`. */
  ghost predicate Prefix(d: seq<Seeds.Draw>, d2: seq<Seeds.Draw>) {
    |d| <= |d2| && forall p :: 0 <= p < |d| ==> d2[p] == d[p]
  }

  /** A subtree grown from draws of a log is grown, the same, from any longer log. */
  lemma {:induction false} GrowExtends(c: Chooser, level: nat, d: seq<Seeds.Draw>, d2: seq<Seeds.Draw>, i: nat)
    requires Prefix(d, d2)
    ensures Grow(c, level, d, i).Some? ==> Grow(c, level, d2, i) == Grow(c, level, d, i)
    decreases Budget(level), 0
  {
    if Grow(c, level, d, i).Some? {
      var k := GrowSome(c, level, d, i);
      var n := DrawCount(k);
      if Arity(k) > 0 {
        GrowKidsExtends(c, level + 1, Arity(k), d, d2, i + 1 + n);
      }
      GrowSame(c, level, d, d2, i, k);
    }
  }

  /** What a grown subtree takes: the chooser's class for the draw at `i`, doubles after it, and its children. */
  lemma GrowSome(c: Chooser, level: nat, d: seq<Seeds.Draw>, i: nat) returns (k: NodeKind)
    requires Grow(c, level, d, i).Some?
    ensures i < |d| && c(level, d[i]) == Some(k) && DoublesIn(d, i + 1, i + 1 + DrawCount(k))
    ensures Arity(k) > 0 ==> level < MAX_DEPTH && GrowKids(c, level + 1, Arity(k), d, i + 1 + DrawCount(k)).Some?
  {
    k := c(level, d[i]).value;
    assert Grow(c, level, d, i) == GrowAt(c, level, d, i, k);
  }

  /** Two logs that agree on a node's draws and on its children grow the same node. */
  lemma GrowSame(c: Chooser, level: nat, d: seq<Seeds.Draw>, d2: seq<Seeds.Draw>, i: nat, k: NodeKind)
    requires Grow(c, level, d, i).Some? && Prefix(d, d2) && i < |d| && c(level, d[i]) == Some(k)
    requires DoublesIn(d, i + 1, i + 1 + DrawCount(k))
    requires Arity(k) > 0 && level < MAX_DEPTH && GrowKids(c, level + 1, Arity(k), d, i + 1 + DrawCount(k)).Some? ==>
      GrowKids(c, level + 1, Arity(k), d2, i + 1 + DrawCount(k)) == GrowKids(c, level + 1, Arity(k), d, i + 1 + DrawCount(k))
    ensures Grow(c, level, d2, i) == Grow(c, level, d, i)
  {
    assert d2[i] == d[i];
    BuiltExtends(k, d, d2, i + 1);
    assert Grow(c, level, d, i) == GrowAt(c, level, d, i, k);
    assert Grow(c, level, d2, i) == GrowAt(c, level, d2, i, k);
  }

  /** A leaf grown at `i` is the class chosen by the draw there, built from the draws after it. */
  lemma GrowLeaf(c: Chooser, level: nat, d: seq<Seeds.Draw>, i: nat, k: NodeKind)
    requires i < |d| && c(level, d[i]) == Some(k) && Arity(k) == 0
    requires DoublesIn(d, i + 1, i + 1 + DrawCount(k))
    ensures Grow(c, level, d, i) == Some((Built(k, d, i + 1, []), i + 1 + DrawCount(k)))
  {
    assert Grow(c, level, d, i) == GrowAt(c, level, d, i, k);
  }

  /** A node with slots grown at `i` is the class chosen there over the children grown after its own draws. */
  lemma GrowInner(c: Chooser, level: nat, d: seq<Seeds.Draw>, i: nat, k: NodeKind, kids: (seq<Expr>, nat))
    requires i < |d| && c(level, d[i]) == Some(k) && Arity(k) > 0 && level < MAX_DEPTH
    requires DoublesIn(d, i + 1, i + 1 + DrawCount(k))
    requires GrowKids(c, level + 1, Arity(k), d, i + 1 + DrawCount(k)) == Some(kids)
    ensures Grow(c, level, d, i) == Some((Built(k, d, i + 1, kids.0), kids.1))
  {
    assert Grow(c, level, d, i) == GrowAt(c, level, d, i, k);
  }

  /** `params` and `points` are what the seed constructor of `k` makes from the draws `t`. */
  ghost predicate MadeFrom(k: NodeKind, params: seq<Values.Snapshot>, points: int, t: seq<Seeds.Draw>) {
    DrawCountOfShape(k);
    |t| == DrawCount(k) && AllDoubles(t) &&
    params == Drawn(Shape(k), t[..DrawsForAll(Shape(k))]) &&
    points == (if k == Flower then PointsFrom(t[|t| - 1].d) else 0)
  }

  /**
   * A node grows at `i` when the draw there chooses its class, the draws after it are the ones
   * its class's seed constructor made its parameters from, and its children grow after those.
   */
  lemma GrowsInto(c: Chooser, level: nat, d: seq<Seeds.Draw>, i: nat, e: Expr, j: nat)
    requires i < |d| && c(level, d[i]) == Some(e.kind) && (Arity(e.kind) > 0 ==> level < MAX_DEPTH)
    requires i + 1 + DrawCount(e.kind) <= |d|
    requires MadeFrom(e.kind, e.params, e.points, d[i + 1..i + 1 + DrawCount(e.kind)])
    requires GrowKids(c, level + 1, Arity(e.kind), d, i + 1 + DrawCount(e.kind)) == Some((e.kids, j))
    ensures Grow(c, level, d, i) == Some((e, j))
  {
    var k := e.kind;
    var t := d[i + 1..i + 1 + DrawCount(k)];
    assert DoublesIn(d, i + 1, i + 1 + DrawCount(k)) by {
      forall p | i + 1 <= p < i + 1 + DrawCount(k) ensures d[p].DrewDouble? {
        assert d[p] == t[p - (i + 1)];
      }
    }
    if Arity(k) > 0 {
      GrowInner(c, level, d, i, k, (e.kids, j));
    } else {
      GrowLeaf(c, level, d, i, k);
    }
  }

  /** The node built from draws of a log is the one built from those draws in any longer log. */
  lemma BuiltExtends(k: NodeKind, d: seq<Seeds.Draw>, d2: seq<Seeds.Draw>, lo: nat)
    requires Prefix(d, d2) && DoublesIn(d, lo, lo + DrawCount(k))
    ensures DoublesIn(d2, lo, lo + DrawCount(k))
    ensures forall kids :: Built(k, d2, lo, kids) == Built(k, d, lo, kids)
  {
    assert d2[lo..lo + DrawCount(k)] == d[lo..lo + DrawCount(k)];
  }

  lemma {:induction false} GrowKidsExtends(c: Chooser, level: nat, count: nat, d: seq<Seeds.Draw>, d2: seq<Seeds.Draw>, i: nat)
    requires i <= |d| && Prefix(d, d2)
    ensures GrowKids(c, level, count, d, i).Some? ==> GrowKids(c, level, count, d2, i) == GrowKids(c, level, count, d, i)
    decreases Budget(level), 1, count
  {
    if count > 0 && GrowKids(c, level, count, d, i).Some? {
      var before, last := KidsLast(c, level, count, d, i);
      GrowKidsExtends(c, level, count - 1, d, d2, i);
      GrowExtends(c, level, d, d2, before.1);
      KidsPut(c, level, count, d2, i, before, last);
    }
  }

  /** The last of `count` siblings grown right after the others completes the list. */
  lemma KidsPut(c: Chooser, level: nat, count: nat, d: seq<Seeds.Draw>, i: nat, before: (seq<Expr>, nat), last: (Expr, nat))
    requires count > 0 && i <= |d| && GrowKids(c, level, count - 1, d, i) == Some(before)
    requires Grow(c, level, d, before.1) == Some(last)
    ensures GrowKids(c, level, count, d, i) == Some((before.0 + [last.0], last.1))
  {
  }

  /** A list of siblings grown from `d` at `i` is the ones before the last and the last grown after them. */
  lemma KidsLast(c: Chooser, level: nat, count: nat, d: seq<Seeds.Draw>, i: nat) returns (before: (seq<Expr>, nat), last: (Expr, nat))
    requires count > 0 && i <= |d| && GrowKids(c, level, count, d, i).Some?
    ensures GrowKids(c, level, count - 1, d, i) == Some(before) && before.1 <= |d|
    ensures Grow(c, level, d, before.1) == Some(last)
    ensures GrowKids(c, level, count, d, i) == Some((before.0 + [last.0], last.1))
  {
    before := GrowKids(c, level, count - 1, d, i).value;
    last := Grow(c, level, d, before.1).value;
  }

  /** One more sibling grown from the draws after the others extends the list by that sibling. */
  lemma KidsSnoc(c: Chooser, level: nat, count: nat, d: seq<Seeds.Draw>, i: nat, before: (seq<Expr>, nat), last: (Expr, nat))
    requires i <= |d| && GrowKids(c, level, count, d, i) == Some(before)
    requires Grow(c, level, d, before.1) == Some(last)
    ensures GrowKids(c, level, count + 1, d, i) == Some((before.0 + [last.0], last.1))
  {
  }

  /** The siblings grown from a log, then one more grown right after them in a longer log. */
  lemma KidsGrowOn(c: Chooser, level: nat, count: nat, d: seq<Seeds.Draw>, d2: seq<Seeds.Draw>, i: nat, ms: seq<Expr>, m: Expr)
    requires i <= |d| && Prefix(d, d2) && GrowKids(c, level, count, d, i) == Some((ms, |d|))
    requires Grow(c, level, d2, |d|) == Some((m, |d2|))
    ensures GrowKids(c, level, count + 1, d2, i) == Some((ms + [m], |d2|))
  {
    GrowKidsExtends(c, level, count, d, d2, i);
    KidsSnoc(c, level, count, d2, i, (ms, |d|), (m, |d2|));
  }

  /** A rule a node's class must follow at its level. */
  type Rules = (NodeKind, nat) -> bool

  /** The shape rules of the walk under the algorithm `a`. */
  ghost function ShapeRules(a: Seeds.Algorithm): Rules {
    (k: NodeKind, level: nat) => HeadOk(a, k, level)
  }

  /** Every node follows the rules at its level, each child one level deeper than its parent. */
  ghost predicate Grown(ok: Rules, e: Expr, level: nat)
    decreases e
  {
    ok(e.kind, level) &&
    forall i :: 0 <= i < |e.kids| ==> Grown(ok, e.kids[i], level + 1)
  }

  /** Every class `c` chooses follows the rules. */
  ghost predicate Obeys(c: Chooser, ok: Rules) {
    forall level: nat, u: Seeds.Draw :: c(level, u).Some? ==> ok(c(level, u).value, level)
  }

  /** The walk follows the shape rules. */
  lemma WalkerObeys(a: Seeds.Algorithm)
    ensures Obeys(Walker(a), ShapeRules(a))
  {
    forall level: nat, u: Seeds.Draw | Walker(a)(level, u).Some?
      ensures ShapeRules(a)(Walker(a)(level, u).value, level)
    {
      ChosenOk(a, level, u);
    }
  }

  /** Every subtree the draws grow follows the shape rules and has the slots and parameters of its classes. */
  lemma {:induction false} GrowIsGrown(ok: Rules, c: Chooser, level: nat, d: seq<Seeds.Draw>, i: nat)
    requires Obeys(c, ok)
    ensures Grow(c, level, d, i).Some? ==>
      Grown(ok, Grow(c, level, d, i).value.0, level) && WellFormed(Grow(c, level, d, i).value.0)
    decreases Budget(level), 0
  {
    if Grow(c, level, d, i).Some? {
      var k := GrowSome(c, level, d, i);
      if Arity(k) > 0 {
        var kids := GrowKids(c, level + 1, Arity(k), d, i + 1 + DrawCount(k)).value;
        GrowKidsAreGrown(ok, c, level + 1, Arity(k), d, i + 1 + DrawCount(k));
        GrowInner(c, level, d, i, k, kids);
        BuiltGrown(ok, level, k, d, i + 1, kids.0);
      } else {
        GrowLeaf(c, level, d, i, k);
        BuiltGrown(ok, level, k, d, i + 1, []);
      }
    }
  }

  lemma {:induction false} GrowKidsAreGrown(ok: Rules, c: Chooser, level: nat, count: nat, d: seq<Seeds.Draw>, i: nat)
    requires Obeys(c, ok) && i <= |d|
    ensures GrowKids(c, level, count, d, i).Some? ==> AllGrown(ok, GrowKids(c, level, count, d, i).value.0, level)
    decreases Budget(level), 1, count
  {
    if count > 0 && GrowKids(c, level, count, d, i).Some? {
      var before, last := KidsLast(c, level, count, d, i);
      GrowKidsAreGrown(ok, c, level, count - 1, d, i);
      GrowIsGrown(ok, c, level, d, before.1);
      AllGrownSnoc(ok, before.0, last.0, level);
    }
  }

  /** Every one of `ms` is grown at `level` and well formed. */
  ghost predicate AllGrown(ok: Rules, ms: seq<Expr>, level: nat) {
    forall m :: 0 <= m < |ms| ==> Grown(ok, ms[m], level) && WellFormed(ms[m])
  }

  lemma AllGrownSnoc(ok: Rules, ms: seq<Expr>, e: Expr, level: nat)
    requires AllGrown(ok, ms, level) && Grown(ok, e, level) && WellFormed(e)
    ensures AllGrown(ok, ms + [e], level)
  {
    forall m | 0 <= m < |ms|
      ensures Grown(ok, (ms + [e])[m], level) && WellFormed((ms + [e])[m])
    {
      assert (ms + [e])[m] == ms[m];
    }
  }

  /** A node of a class that follows the shape rules, built over grown children, is grown. */
  lemma BuiltGrown(ok: Rules, level: nat, k: NodeKind, d: seq<Seeds.Draw>, lo: nat, kids: seq<Expr>)
    requires ok(k, level) && DoublesIn(d, lo, lo + DrawCount(k)) && |kids| == Arity(k)
    requires AllGrown(ok, kids, level + 1)
    ensures Grown(ok, Built(k, d, lo, kids), level) && WellFormed(Built(k, d, lo, kids))
  {
    BuiltFits(k, d, lo);
  }

  /** A built node has the parameters of its class. */
  lemma BuiltFits(k: NodeKind, d: seq<Seeds.Draw>, lo: nat)
    requires DoublesIn(d, lo, lo + DrawCount(k))
    ensures forall kids :: ParamsFit(Built(k, d, lo, kids).params, Shape(k))
  {
    var own := d[lo..lo + DrawCount(k)];
    assert AllDoubles(own) by {
      forall p | 0 <= p < |own| ensures own[p].DrewDouble? {
        assert own[p] == d[lo + p];
      }
    }
    DrawCountOfShape(k);
    DrawnFits(Shape(k), own[..DrawsForAll(Shape(k))]);
  }

  /** Parameters made by the seed constructors of a shape have that shape. */
  lemma {:induction false} DrawnFits(shape: seq<ValueKind>, t: seq<Seeds.Draw>)
    requires |t| == DrawsForAll(shape) && AllDoubles(t)
    ensures ParamsFit(Drawn(shape, t), shape)
    decreases |shape|
  {
    if |shape| > 0 {
      var k := DrawsFor(shape[0]);
      DrawnFits(shape[1..], t[k..]);
      var r := Drawn(shape, t);
      assert r == [FirstDrawn(shape[0], t)] + Drawn(shape[1..], t[k..]);
      forall i | 0 < i < |r|
        ensures Fits(r[i], shape[i])
      {
        assert r[i] == Drawn(shape[1..], t[k..])[i - 1];
      }
    }
  }

  /** The levels below a node: none for a leaf. */
  function Depth(e: Expr): nat
    decreases e
  {
    if |e.kids| == 0 then 0 else 1 + DepthOfKids(e, 0)
  }

  function DepthOfKids(e: Expr, i: nat): nat
    decreases e, |e.kids| - i
  {
    if i >= |e.kids| then 0 else
      var here := Depth(e.kids[i]);
      var rest := DepthOfKids(e, i + 1);
      if here > rest then here else rest
  }

  /** No node of a grown tree lies deeper than the maximum depth. */
  lemma {:induction false} GrownDepth(a: Seeds.Algorithm, e: Expr, level: nat)
    requires Grown(ShapeRules(a), e, level) && WellFormed(e) && level <= MAX_DEPTH
    ensures level + Depth(e) <= MAX_DEPTH
    decreases e, 1
  {
    HeadShape(a, e.kind, level);
    if |e.kids| > 0 {
      GrownKidsDepth(a, e, level, 0);
    }
  }

  lemma {:induction false} GrownKidsDepth(a: Seeds.Algorithm, e: Expr, level: nat, i: nat)
    requires Grown(ShapeRules(a), e, level) && WellFormed(e) && level <= MAX_DEPTH && |e.kids| > 0
    ensures level + 1 + DepthOfKids(e, i) <= MAX_DEPTH
    decreases e, 0, |e.kids| - i
  {
    HeadShape(a, e.kind, level);
    if i < |e.kids| {
      GrownDepth(a, e.kids[i], level + 1);
      GrownKidsDepth(a, e, level, i + 1);
    }
  }

  /** Every leaf of a subtree grown at `level` lies below the minimum depth. */
  ghost predicate LeavesBelowMin(e: Expr, level: nat)
    decreases e
  {
    (|e.kids| == 0 ==> level > MIN_DEPTH) &&
    forall i :: 0 <= i < |e.kids| ==> LeavesBelowMin(e.kids[i], level + 1)
  }

  /** Down to the minimum depth every node has children, so every path is longer than that. */
  lemma {:induction false} GrownLeavesDeep(a: Seeds.Algorithm, e: Expr, level: nat)
    requires Grown(ShapeRules(a), e, level) && WellFormed(e) && level > 0
    ensures LeavesBelowMin(e, level)
    decreases e
  {
    HeadShape(a, e.kind, level);
    forall i | 0 <= i < |e.kids|
      ensures LeavesBelowMin(e.kids[i], level + 1)
    {
      GrownLeavesDeep(a, e.kids[i], level + 1);
    }
  }

  /** Below the root no node is an `RGB_Space`. */
  lemma {:induction false} GrownColorless(a: Seeds.Algorithm, e: Expr, level: nat)
    requires Grown(ShapeRules(a), e, level) && level > 0
    ensures Colorless(e)
    decreases e
  {
    HeadShape(a, e.kind, level);
    forall i | 0 <= i < |e.kids|
      ensures Colorless(e.kids[i])
    {
      GrownColorless(a, e.kids[i], level + 1);
    }
  }

  /** A tree grown from level 0 is an `RGB_Space` over three colourless channels: one `compute` can paint. */
  lemma GrownPaintable(a: Seeds.Algorithm, e: Expr)
    requires Grown(ShapeRules(a), e, 0) && WellFormed(e)
    ensures Paintable(e) && |e.kids| == 3
    ensures forall i :: 0 <= i < 3 ==> LeavesBelowMin(e.kids[i], 1)
  {
    HeadShape(a, e.kind, 0);
    forall i | 0 <= i < |e.kids|
      ensures Colorless(e.kids[i]) && LeavesBelowMin(e.kids[i], 1)
    {
      GrownColorless(a, e.kids[i], 1);
      GrownLeavesDeep(a, e.kids[i], 1);
    }
  }
}
