/**
 * The node framework of src/vash/operation: one class `OperationNode` whose `kind` is the
 * Java subclass, with its `Value` parameters, its child slots (null when the class has none)
 * and, for `Flower`, its point count.
 *
 * `Model()` is the subtree as an `Expr` value and `Eval` is what its plane holds at every
 * cell. `Const`, `Divide` and `Multiply` are stated exactly over reals; the cell formulas of
 * the geometric and trigonometric classes are a `Formula` parameter.
 */
module Nodes {
  import opened Wrappers
  import opened Jvm
  import opened Operations
  import opened Values
  import opened Planes
  import opened ImageParams
  import Seeds

  /** A subtree as a value: the class, its parameters' numbers, `Flower`'s point count and the children. */
  datatype Expr = Expr(kind: NodeKind, params: seq<Snapshot>, points: int, kids: seq<Expr>)

  /** A parameter's numbers match the kind and bounds its class creates it with. */
  predicate Fits(s: Snapshot, v: ValueKind) {
    match v
    case BoundedIn(lo, hi) => s.BoundedSnapshot? && s.lower == lo && s.upper == hi
    case WrappingIn(lo, hi) => s.WrappingSnapshot? && s.lower == lo && s.upper == hi
    case PositionAnywhere => s.PositionSnapshot?
  }

  predicate ParamsFit(ps: seq<Snapshot>, shape: seq<ValueKind>) {
    |ps| == |shape| && forall i :: 0 <= i < |ps| ==> Fits(ps[i], shape[i])
  }

  /** Every node has as many children as its class allocates slots, and the parameters its class creates. */
  predicate WellFormed(e: Expr)
    decreases e
  {
    |e.kids| == Arity(e.kind) && ParamsFit(e.params, Shape(e.kind)) &&
    forall i :: 0 <= i < |e.kids| ==> WellFormed(e.kids[i])
  }

  /** No `RGB_Space` anywhere: the only subtrees whose plane-returning `compute` does not throw. */
  predicate Colorless(e: Expr)
    decreases e
  {
    e.kind != RGBSpace && forall i :: 0 <= i < |e.kids| ==> Colorless(e.kids[i])
  }

  /** Every `Bounded` number lies within its bounds. */
  predicate AllInRange(ps: seq<Snapshot>) {
    |ps| == 0 || ((ps[0].BoundedSnapshot? ==> ps[0].lower <= ps[0].v <= ps[0].upper) && AllInRange(ps[1..]))
  }

  /** Every `Bounded` parameter in the subtree lies within its bounds: the subtrees `clone` can copy. */
  predicate InRange(e: Expr)
    decreases e
  {
    AllInRange(e.params) && forall i :: 0 <= i < |e.kids| ==> InRange(e.kids[i])
  }

  /** The children from index i on are all within range. */
  predicate KidsInRangeFrom(e: Expr, i: nat)
    decreases |e.kids| - i
  {
    i >= |e.kids| || (InRange(e.kids[i]) && KidsInRangeFrom(e, i + 1))
  }

  /** A model is within range when its own parameters are and its children are, slot by slot. */
  lemma InRangeSplit(e: Expr)
    ensures InRange(e) <==> AllInRange(e.params) && KidsInRangeFrom(e, 0)
  {
    KidsInRangeAll(e, 0);
  }

  lemma {:induction false} KidsInRangeAll(e: Expr, i: nat)
    ensures KidsInRangeFrom(e, i) <==> forall k :: i <= k < |e.kids| ==> InRange(e.kids[k])
    decreases |e.kids| - i
  {
    if i < |e.kids| {
      KidsInRangeAll(e, i + 1);
    }
  }

  /** `clampf`: `min(max(x, lower), upper)`. */
  function Clampf(x: real, lower: real, upper: real): (r: real)
    ensures lower <= upper ==> lower <= r <= upper
    ensures lower <= x <= upper ==> r == x
    ensures x < lower && lower <= upper ==> r == lower
    ensures x > upper ==> r == upper
  {
    var m := if x >= lower then x else lower;
    if m <= upper then m else upper
  }

  /** `A * B`, unclamped. */
  function Product(a: real, b: real): real {
    a * b
  }

  /**
   * A cell formula: given a node's class, parameters, point count, the cells of its
   * children at one place, and the logical (x, y) of that place, the node's cell there.
   */
  type Formula = (NodeKind, seq<Snapshot>, int, seq<real>, real, real) -> real

  /** One node's cell from its children's cells at the same place. */
  function Cell(f: Formula, kind: NodeKind, params: seq<Snapshot>, points: int, kids: seq<real>, x: real, y: real): real
    requires kind != RGBSpace && |kids| == Arity(kind) && ParamsFit(params, Shape(kind))
  {
    match kind
    case Const => params[0].v
    case Divide => if kids[1] == 0.0 then 1.0 else Clampf(kids[0] / kids[1], -1.0, 1.0)
    case Multiply => Product(kids[0], kids[1])
    case _ => f(kind, params, points, kids, x, y)
  }

  /** The cell at logical (x, y) of the plane a subtree computes. */
  function Eval(f: Formula, e: Expr, x: real, y: real): real
    requires WellFormed(e) && Colorless(e)
    decreases e, 1
  {
    Cell(f, e.kind, e.params, e.points, EvalKids(f, e, x, y), x, y)
  }

  function EvalKids(f: Formula, e: Expr, x: real, y: real): (r: seq<real>)
    requires WellFormed(e) && Colorless(e)
    decreases e, 0
    ensures |r| == |e.kids| && forall i :: 0 <= i < |r| ==> r[i] == Eval(f, e.kids[i], x, y)
  {
    seq(|e.kids|, i requires 0 <= i < |e.kids| => Eval(f, e.kids[i], x, y))
  }

  /** A `Const` plane holds its value in every cell. */
  lemma ConstEverywhere(f: Formula, e: Expr, x: real, y: real, x': real, y': real)
    requires WellFormed(e) && Colorless(e) && e.kind == Const
    ensures e.params[0].BoundedSnapshot?
    ensures Eval(f, e, x, y) == e.params[0].v == Eval(f, e, x', y')
  {
  }

  /** A `Divide` cell is 1 where the divisor is exactly 0, otherwise the clamped quotient; always in [-1,1]. */
  lemma DivideCells(f: Formula, e: Expr, x: real, y: real)
    requires WellFormed(e) && Colorless(e) && e.kind == Divide
    ensures -1.0 <= Eval(f, e, x, y) <= 1.0
    ensures Eval(f, e.kids[1], x, y) == 0.0 ==> Eval(f, e, x, y) == 1.0
    ensures Eval(f, e.kids[1], x, y) != 0.0 ==>
      Eval(f, e, x, y) == Clampf(Eval(f, e.kids[0], x, y) / Eval(f, e.kids[1], x, y), -1.0, 1.0)
  {
    assert EvalKids(f, e, x, y)[1] == Eval(f, e.kids[1], x, y);
  }

  /** A `Multiply` cell is the unclamped product, and stays in [-1,1] when both factors do. */
  lemma MultiplyCells(f: Formula, e: Expr, x: real, y: real)
    requires WellFormed(e) && Colorless(e) && e.kind == Multiply
    ensures Eval(f, e, x, y) == Product(Eval(f, e.kids[0], x, y), Eval(f, e.kids[1], x, y))
    ensures -1.0 <= Eval(f, e.kids[0], x, y) <= 1.0 && -1.0 <= Eval(f, e.kids[1], x, y) <= 1.0 ==>
      -1.0 <= Eval(f, e, x, y) <= 1.0
  {
    var ks := EvalKids(f, e, x, y);
    UnitProductIf(ks[0], ks[1]);
  }

  lemma UnitProductIf(a: real, b: real)
    ensures -1.0 <= a <= 1.0 && -1.0 <= b <= 1.0 ==> -1.0 <= Product(a, b) <= 1.0
  {
    if -1.0 <= a <= 1.0 && -1.0 <= b <= 1.0 {
      UnitProduct(a, b);
    }
  }

  lemma UnitProduct(a: real, b: real)
    requires -1.0 <= a <= 1.0 && -1.0 <= b <= 1.0
    ensures -1.0 <= a * b <= 1.0
  {
    if a >= 0.0 && b >= 0.0 {
      assert a * b <= 1.0 * b;
    } else if a >= 0.0 {
      assert a * b >= a * -1.0;
    } else if b >= 0.0 {
      assert a * b >= -1.0 * b;
    } else {
      assert a * b <= (-a) * 1.0 by {
        assert (-a) * (-b) <= (-a) * 1.0;
      }
    }
  }

  /** The numbers of a node's parameters. */
  function Snapshots(vs: seq<Value>): (r: seq<Snapshot>)
    reads Targets(vs)
    ensures |r| == |vs|
  {
    if |vs| == 0 then [] else [SnapshotOf(vs[0])] + Snapshots(vs[1..])
  }

  /** A parameter object has the kind and bounds its class creates it with. */
  predicate ValueFits(v: Value, k: ValueKind) {
    match k
    case BoundedIn(lo, hi) => v.BoundedValue? && v.b.lower == lo && v.b.upper == hi
    case WrappingIn(lo, hi) => v.WrappingValue? && v.w.lower == lo && v.w.upper == hi
    case PositionAnywhere => v.PositionValue?
  }

  predicate ValuesFit(vs: seq<Value>, shape: seq<ValueKind>) {
    |vs| == |shape| && forall i :: 0 <= i < |vs| ==> ValueFits(vs[i], shape[i])
  }

  lemma SnapshotsFit(vs: seq<Value>, shape: seq<ValueKind>)
    requires ValuesFit(vs, shape)
    ensures ParamsFit(Snapshots(vs), shape)
    decreases |vs|
  {
    if |vs| > 0 {
      SnapshotsFit(vs[1..], shape[1..]);
      assert Snapshots(vs) == [SnapshotOf(vs[0])] + Snapshots(vs[1..]);
      forall i | 0 <= i < |vs|
        ensures Fits(Snapshots(vs)[i], shape[i])
      {
        if i > 0 {
          assert Snapshots(vs)[i] == Snapshots(vs[1..])[i - 1];
        }
      }
    }
  }

  /** Each parameter's numbers are those of the object it refers to. */
  lemma SnapshotAt(vs: seq<Value>, i: nat)
    requires i < |vs|
    ensures Snapshots(vs)[i] == SnapshotOf(vs[i])
    decreases i
  {
    if i > 0 {
      SnapshotAt(vs[1..], i - 1);
    }
  }

  /** The objects the parameters refer to. */
  function Targets(vs: seq<Value>): set<object> {
    if |vs| == 0 then {} else {Target(vs[0])} + Targets(vs[1..])
  }

  /** The caller-owned `ArrayList<Value>` that `accumulateValues` appends to. */
  class ValueList {
    var items: seq<Value>

    constructor ()
      ensures items == []
    {
      items := [];
    }

    /** One `add` per value, in order. */
    method AddAll(vs: seq<Value>)
      modifies this
      ensures items == old(items) + vs
    {
      var k := 0;
      while k < |vs|
        invariant 0 <= k <= |vs|
        invariant items == old(items) + vs[..k]
      {
        Add(vs[k]);
        k := k + 1;
      }
      assert vs[..k] == vs;
    }

    /** `add` appends. */
    method Add(v: Value)
      modifies this
      ensures items == old(items) + [v]
    {
      items := items + [v];
    }
  }

  class OperationNode {
    const kind: NodeKind
    /** `_values`, never written after construction; the source holds null when the class has none. */
    const values: seq<Value>
    /** `_children`: null when the class has no child slots. */
    const children: array?<OperationNode?>
    /** `Flower`'s `n_points`; 0 for every other class. */
    const points: int
    ghost var Repr: set<object>

    /**
     * The node owns its slot array and its parameter objects; every filled slot holds a valid
     * node whose footprint sits inside this one and contains neither this node nor its slots.
     */
    ghost predicate Valid()
      reads this, Repr
      decreases Repr
    {
      this in Repr &&
      ValuesFit(values, Shape(kind)) && Targets(values) <= Repr &&
      (kind != Flower ==> points == 0) &&
      (children == null <==> Arity(kind) == 0) &&
      (children != null ==>
        children in Repr && children.Length == Arity(kind) &&
        forall i :: 0 <= i < children.Length && children[i] != null ==>
          children[i] in Repr && children[i].Repr <= Repr &&
          this !in children[i].Repr && children !in children[i].Repr && children[i].Valid())
    }

    /** Every slot, all the way down, is filled. */
    ghost predicate Complete()
      requires Valid()
      reads Repr
      decreases Repr
    {
      children != null ==>
        forall i :: 0 <= i < children.Length ==> children[i] != null && children[i].Complete()
    }

    /** A complete subtree with the given model. */
    ghost predicate CopyOf(e: Expr)
      reads this, Repr
    {
      Valid() && Complete() && Model() == e
    }

    /** No slot is filled yet. */
    ghost predicate Empty()
      reads this, children
    {
      children != null ==> forall i :: 0 <= i < children.Length ==> children[i] == null
    }

    /** The subtree as a value. */
    ghost function Model(): (e: Expr)
      requires Valid() && Complete()
      reads Repr
      decreases Repr, 4
      ensures WellFormed(e) && e.kind == kind && e.params == Snapshots(values) && e.points == points
    {
      SnapshotsFit(values, Shape(kind));
      Expr(kind, Snapshots(values), points, KidsFrom(0))
    }

    /** The models of the children in slots i and after. */
    ghost function KidsFrom(i: nat): (r: seq<Expr>)
      requires Valid() && Complete() && i <= Arity(kind)
      reads Repr
      decreases Repr, 3 - i
      ensures |r| == Arity(kind) - i
      ensures forall k :: 0 <= k < |r| ==> WellFormed(r[k]) && r[k] == children[i + k].Model()
    {
      if i == Arity(kind) then [] else [children[i].Model()] + KidsFrom(i + 1)
    }

    lemma ModelKid(i: nat)
      requires Valid() && Complete() && i < Arity(kind)
      ensures Model().kids[i] == children[i].Model()
    {
      assert Model().kids == KidsFrom(0);
    }

    /** The allocating constructor `OperationNode(n_values, n_children)` with the parameters put in place. */
    constructor Blank(kind: NodeKind, values: seq<Value>, points: int)
      requires ValuesFit(values, Shape(kind)) && (kind != Flower ==> points == 0)
      ensures Valid() && Empty()
      ensures this.kind == kind && this.values == values && this.points == points
      ensures children != null ==> fresh(children)
      ensures fresh(Repr - Targets(values))
      ensures Repr == {this} + (if children == null then {} else {children}) + Targets(values)
    {
      this.kind := kind;
      this.values := values;
      this.points := points;
      var slots := NewSlots(Arity(kind));
      children := slots;
      new;
      Repr := {this} + (if children == null then {} else {children}) + Targets(values);
    }

    /**
     * The seed constructor `X(s)` of every class: its parameters drawn in the order it
     * creates them, then `Flower`'s point count; the slots stay empty for the builder.
     */
    static method FromSeed(kind: NodeKind, s: Seeds.Seed) returns (node: OperationNode)
      requires s.Valid()
      modifies s, s.Footprint()
      ensures node.Valid() && node.Empty() && fresh(node.Repr) && node.kind == kind
      ensures s.Valid() && |old(s.log)| <= |s.log| && s.log[..|old(s.log)|] == old(s.log)
      ensures node.SeededBy(s.log[|old(s.log)|..])
    {
      var vs, n, t := DrawAll(Shape(kind), kind == Flower, s);
      DrawCountOfShape(kind);
      TargetsAllocated(vs);
      node := new OperationNode.Blank(kind, vs, n);
      LogSuffix(old(s.log), t, s.log);
    }

    /** `UnaryOperationNode(a)`: the one slot holds `a`. */
    constructor Unary(kind: NodeKind, a: OperationNode)
      requires IsUnary(kind) && a.Valid()
      ensures Valid() && this.kind == kind && children != null && children[..] == [a]
      ensures Repr == {this, children} + a.Repr && fresh(Repr - a.Repr)
    {
      ArityAndShape(kind);
      this.kind := kind;
      values := [];
      points := 0;
      children := new OperationNode?[1](_ => a);
      new;
      Repr := {this, children} + a.Repr;
    }

    /** `BinaryOperationNode(a, b)`: the two slots hold `a` and `b`, which may be the same node. */
    constructor Binary(kind: NodeKind, a: OperationNode, b: OperationNode)
      requires IsBinary(kind) && a.Valid() && b.Valid()
      ensures Valid() && this.kind == kind && children != null && children[..] == [a, b]
      ensures Repr == {this, children} + a.Repr + b.Repr && fresh(Repr - a.Repr - b.Repr)
    {
      ArityAndShape(kind);
      this.kind := kind;
      values := [];
      points := 0;
      children := new OperationNode?[2](i => if i == 0 then a else b);
      new;
      Repr := {this, children} + a.Repr + b.Repr;
    }

    /** `RGB_Space(r, g, b)`: the three channel subtrees in slot order. */
    constructor Color(r: OperationNode, g: OperationNode, b: OperationNode)
      requires r.Valid() && g.Valid() && b.Valid()
      ensures Valid() && kind == RGBSpace && children != null && children[..] == [r, g, b]
      ensures Repr == {this, children} + r.Repr + g.Repr + b.Repr && fresh(Repr - r.Repr - g.Repr - b.Repr)
    {
      kind := RGBSpace;
      values := [];
      points := 0;
      children := new OperationNode?[3](i => if i == 0 then r else if i == 1 then g else b);
      new;
      Repr := {this, children} + r.Repr + g.Repr + b.Repr;
    }

    /** `Const(init)`: throws unless -1 <= init <= 1, since the value goes through `Bounded`'s checking constructor. */
    static method ConstOf(init: real) returns (r: Result<OperationNode, Exception>)
      ensures r.Failure? <==> init < -1.0 || init > 1.0
      ensures r.Failure? ==> r.error == IllegalArgument
      ensures r.Success? ==> r.value.Valid() && r.value.Complete() && fresh(r.value.Repr)
      ensures r.Success? ==> r.value.Model() == Expr(Const, [BoundedSnapshot(init, -1.0, 1.0)], 0, [])
    {
      var b := Bounded.CreateUnit(init);
      if b.Failure? {
        return Failure(b.error);
      }
      var node := new OperationNode.Blank(Const, [BoundedValue(b.value)], 0);
      assert Snapshots(node.values) == [BoundedSnapshot(init, -1.0, 1.0)];
      return Success(node);
    }

    /** `getChildCount`: the slots the class allocates, filled or not. */
    function ChildCount(): (n: int)
      requires Valid()
      reads this, Repr
      ensures n == Arity(kind)
    {
      if children == null then 0 else children.Length
    }

    /** `getValues`: the node's own parameter array, null for a class that has none. */
    function GetValues(): (r: Option<seq<Value>>)
      requires Valid()
      reads this, Repr
      ensures r.None? <==> Shape(kind) == []
      ensures r.Some? ==> r.value == values && |r.value| == |Shape(kind)|
    {
      if |values| == 0 then None else Some(values)
    }

    /**
     * `setChild(offset, child)`. Its asserts are not enabled by default, so an occupied slot is
     * overwritten; an offset outside the slots throws, and so does a class with no slots.
     */
    method SetChild(offset: int, child: OperationNode?) returns (r: Result<(), Exception>)
      requires Valid()
      requires child != null ==> child.Valid() && this !in child.Repr && children !in child.Repr
      modifies this, children
      ensures Valid()
      ensures r.Success? <==> children != null && 0 <= offset < children.Length
      ensures children == null ==> r == Failure(NullPointer)
      ensures children != null && !(0 <= offset < children.Length) ==> r == Failure(IndexOutOfBounds)
      ensures r.Failure? ==> Repr == old(Repr) && (children != null ==> children[..] == old(children[..]))
      ensures r.Success? ==> children[..] == old(children[..])[offset := child]
      ensures r.Success? ==> Repr == old(Repr) + (if child == null then {} else child.Repr)
    {
      if children == null {
        return Failure(NullPointer);
      }
      if !(0 <= offset < children.Length) {
        return Failure(IndexOutOfBounds);
      }
      children[offset] := child;
      if child != null {
        Repr := Repr + child.Repr;
      }
      return Success(());
    }

    /**
     * `setChildren(children...)`: copies the given nodes into the first slots in order. With
     * asserts off, a shorter list leaves the remaining slots alone, and a longer one fills
     * every slot before the index past the end throws.
     */
    method SetChildren(kids: seq<OperationNode?>) returns (r: Result<(), Exception>)
      requires Valid()
      requires forall i :: 0 <= i < |kids| && kids[i] != null ==>
        kids[i].Valid() && this !in kids[i].Repr && children !in kids[i].Repr
      modifies this, children
      ensures Valid() && old(Repr) <= Repr <= old(Repr) + KidsRepr(kids)
      ensures r.Success? <==> |kids| <= ChildCount()
      ensures r.Failure? ==> r.error == (if children == null then NullPointer else IndexOutOfBounds)
      ensures children != null ==> children[..] == Overlay(kids, old(children[..]))
    {
      if children == null {
        if |kids| == 0 {
          return Success(());
        }
        return Failure(NullPointer);
      }
      ghost var bound := KidsRepr(kids);
      KidsReprHas(kids);
      var i := 0;
      while i < |kids| && i < children.Length
        invariant 0 <= i <= |kids| && i <= children.Length
        invariant Valid() && old(Repr) <= Repr <= old(Repr) + bound
        invariant forall j :: 0 <= j < |kids| && kids[j] != null ==>
          kids[j].Valid() && this !in kids[j].Repr && children !in kids[j].Repr && kids[j].Repr <= bound
        invariant children[..] == Overlay(kids[..i], old(children[..]))
      {
        var _ := SetChild(i, kids[i]);
        OverlayStep(kids, i, old(children[..]));
        i := i + 1;
      }
      if i < |kids| {
        OverlayLonger(kids, i, old(children[..]));
        return Failure(IndexOutOfBounds);
      }
      assert kids[..i] == kids;
      return Success(());
    }

    /** The parameters of the whole subtree, this node's first and then each child's in slot order. */
    ghost function AllValues(): (r: seq<Value>)
      requires Valid() && Complete()
      reads Repr
      decreases Repr, 4
    {
      values + ValuesFrom(0)
    }

    ghost function ValuesFrom(i: nat): seq<Value>
      requires Valid() && Complete() && i <= Arity(kind)
      reads Repr
      decreases Repr, 3 - i
    {
      if i == Arity(kind) then [] else children[i].AllValues() + ValuesFrom(i + 1)
    }

    /** `accumulateValues(list)`: appends this node's parameters, then each child's, depth first. */
    method AccumulateValues(list: ValueList)
      requires Valid() && Complete() && list !in Repr
      modifies list
      decreases Repr, 1
      ensures list.items == old(list.items) + AllValues()
    {
      list.AddAll(values);
      if children != null {
        AccumulateChildren(list);
      } else {
        assert ValuesFrom(0) == [];
      }
    }

    /** The loop of `accumulateValues` over the slots. */
    method AccumulateChildren(list: ValueList)
      requires Valid() && Complete() && list !in Repr && children != null
      modifies list
      decreases Repr, 0
      ensures list.items == old(list.items) + ValuesFrom(0)
    {
      var i := 0;
      while i < children.Length
        invariant 0 <= i <= children.Length
        invariant Valid() && Complete()
        invariant list.items + old(ValuesFrom(i)) == old(list.items + ValuesFrom(0))
      {
        ghost var before := list.items;
        assert old(ValuesFrom(i)) == old(children[i].AllValues()) + old(ValuesFrom(i + 1));
        children[i].AccumulateValues(list);
        assert children[i].AllValues() == old(children[i].AllValues());
        AppendAssoc(before, old(children[i].AllValues()), old(ValuesFrom(i + 1)));
        i := i + 1;
      }
    }

    /** The accumulated parameters hold, in order, the numbers of the model's pre-order walk. */
    lemma {:induction false} AccumulatedInPreOrder()
      requires Valid() && Complete()
      ensures Snapshots(AllValues()) == PreOrder(Model())
      decreases Repr, 4
    {
      SnapshotsAppend(values, ValuesFrom(0));
      PreOrderFromKids(0);
    }

    lemma {:induction false} PreOrderFromKids(i: nat)
      requires Valid() && Complete() && i <= Arity(kind)
      ensures Snapshots(ValuesFrom(i)) == PreOrderFrom(Model(), i)
      decreases Repr, 3 - i
    {
      if i < Arity(kind) {
        children[i].AccumulatedInPreOrder();
        PreOrderFromKids(i + 1);
        SnapshotsAppend(children[i].AllValues(), ValuesFrom(i + 1));
        ModelKid(i);
      }
    }

    /**
     * `clone`: a completely independent copy, its parameters copied first and then its
     * children in slot order. `Bounded.clone` goes through the checking constructor, so the
     * copy fails exactly when some `Bounded` in the subtree has been moved out of its range.
     */
    method Clone() returns (r: Result<OperationNode, Exception>)
      requires Valid() && Complete()
      decreases Repr, 4
      ensures r.Failure? <==> !InRange(old(Model()))
      ensures r.Failure? ==> r.error == IllegalArgument
      ensures r.Success? ==> fresh(r.value.Repr) && r.value.CopyOf(old(Model()))
    {
      ghost var m := Model();
      InRangeSplit(m);
      label Start:
      var vs := CloneValues(values, Shape(kind));
      if vs.Failure? {
        return Failure(vs.error);
      }
      TargetsAllocated(vs.value);
      label Values:
      NodeKept@Start(this);
      var kids := CloneFrom(0);
      if kids.Failure? {
        return Failure(kids.error);
      }
      SnapshotsKept@Values(vs.value);
      assert m.kids[0..] == m.kids;
      ghost var owned := Targets(vs.value) + KidsRepr(kids.value);
      assert fresh(owned);
      var node := Assemble(kind, points, vs.value, kids.value, m);
      assert fresh(node.Repr - owned);
      return Success(node);
    }

    /** The copies of the children in slots i and after, in slot order. */
    method CloneFrom(i: nat) returns (r: Result<seq<OperationNode>, Exception>)
      requires Valid() && Complete() && i <= Arity(kind)
      decreases Repr, 3 - i
      ensures r.Failure? <==> !KidsInRangeFrom(old(Model()), i)
      ensures r.Failure? ==> r.error == IllegalArgument
      ensures r.Success? ==> fresh(KidsRepr(r.value)) && Copies(r.value, old(Model()).kids[i..])
    {
      if i == Arity(kind) {
        return Success([]);
      }
      ghost var m := Model();
      ModelKid(i);
      label Start:
      var c := children[i].Clone();
      if c.Failure? {
        return Failure(c.error);
      }
      NodeKept@Start(this);
      assert i < 3 by {
        assert kind.RGBSpace? || Arity(kind) < 3;
      }
      label Kid:
      var rest := CloneFrom(i + 1);
      if rest.Failure? {
        return Failure(rest.error);
      }
      NodeKept@Kid(c.value);
      CopiesPrepend(c.value, rest.value, m.kids, i);
      return Success([c.value] + rest.value);
    }

    /** The new node of a copy, with the class, point count and model of the node it copies. */
    static method Assemble(kind: NodeKind, points: int, vs: seq<Value>, kids: seq<OperationNode>, ghost m: Expr)
      returns (node: OperationNode)
      requires WellFormed(m) && m.kind == kind && m.points == points && (kind != Flower ==> points == 0)
      requires ValuesFit(vs, Shape(kind)) && Snapshots(vs) == m.params && Copies(kids, m.kids)
      ensures node.CopyOf(m)
      ensures fresh(node.Repr - Targets(vs) - old(KidsRepr(kids)))
    {
      node := new OperationNode.Copy(kind, points, vs, kids);
      assert Copies(kids, m.kids);
      node.ValidFromParts(kids, m.kids);
      node.SameModel(m, kids);
    }

    /** `X(values..., children...)`: the given parameters, and the slots holding the given nodes in order. */
    constructor Copy(kind: NodeKind, points: int, vs: seq<Value>, kids: seq<OperationNode>)
      ensures this.kind == kind && this.points == points && values == vs
      ensures Repr == {this} + (if children == null then {} else {children}) + Targets(vs) + old(KidsRepr(kids))
      ensures fresh(Repr - Targets(vs) - old(KidsRepr(kids)))
      ensures children == null <==> |kids| == 0
      ensures children != null ==> children[..] == kids && children !in KidsRepr(kids)
      ensures KidsRepr(kids) == old(KidsRepr(kids)) && this !in KidsRepr(kids)
      ensures Snapshots(vs) == old(Snapshots(vs))
    {
      TargetsAllocated(vs);
      KidsReprAllocated(kids);
      this.kind := kind;
      values := vs;
      this.points := points;
      if |kids| == 0 {
        children := null;
      } else {
        children := new OperationNode?[|kids|](k requires 0 <= k < |kids| => kids[k]);
      }
      new;
      Repr := {this} + (if children == null then {} else {children}) + Targets(vs) + old(KidsRepr(kids));
      KidsReprKept(kids);
      SnapshotsKept(vs);
    }

    /** A node whose slots hold the given valid nodes and whose footprint takes in theirs is valid. */
    lemma ValidFromParts(kids: seq<OperationNode>, ms: seq<Expr>)
      requires this in Repr && ValuesFit(values, Shape(kind)) && Targets(values) <= Repr
      requires (kind != Flower ==> points == 0) && |kids| == Arity(kind)
      requires children == null <==> |kids| == 0
      requires children != null ==> children in Repr && children[..] == kids
      requires KidsRepr(kids) <= Repr && this !in KidsRepr(kids) && children !in KidsRepr(kids)
      requires Copies(kids, ms)
      ensures Valid()
    {
      KidsReprHas(kids);
    }

    /** A node built from copies has the model of the node it copies. */
    lemma SameModel(m: Expr, kids: seq<OperationNode>)
      requires Valid() && WellFormed(m)
      requires kind == m.kind && points == m.points && Snapshots(values) == m.params
      requires |kids| == Arity(kind) && (children != null ==> children[..] == kids)
      requires Copies(kids, m.kids)
      ensures Complete() && Model() == m
    {
      assert Complete();
      forall k | 0 <= k < Arity(kind)
        ensures Model().kids[k] == m.kids[k]
      {
        ModelKid(k);
      }
    }

    /** Copies the parameters in order; the first `Bounded` out of range throws. */
    static method CloneValues(vs: seq<Value>, shape: seq<ValueKind>) returns (r: Result<seq<Value>, Exception>)
      requires ValuesFit(vs, shape)
      decreases |vs|
      ensures r.Failure? <==> !AllInRange(Snapshots(vs))
      ensures r.Failure? ==> r.error == IllegalArgument
      ensures r.Success? ==> ValuesFit(r.value, shape) && fresh(Targets(r.value)) && Snapshots(r.value) == Snapshots(vs)
    {
      if |vs| == 0 {
        return Success([]);
      }
      var v: Value;
      match vs[0] {
      case BoundedValue(b) => {
        var c := b.Clone();
        if c.Failure? {
          return Failure(c.error);
        }
        v := BoundedValue(c.value);
      }
      case WrappingValue(w) => {
        var c := w.Clone();
        v := WrappingValue(c);
      }
      case PositionValue(p) => {
        var c := p.Clone();
        v := PositionValue(c);
      }
      }
      var rest := CloneValues(vs[1..], shape[1..]);
      assert Snapshots(vs) == [SnapshotOf(vs[0])] + Snapshots(vs[1..]);
      if rest.Failure? {
        return Failure(rest.error);
      }
      SnapshotsFront(v, rest.value, shape);
      return Success([v] + rest.value);
    }

    /** The empty slot array of a class with `n` children; none for a class without. */
    static method NewSlots(n: nat) returns (a: array?<OperationNode?>)
      ensures (a == null <==> n == 0) && (a != null ==> fresh(a) && a.Length == n)
      ensures a != null ==> forall i :: 0 <= i < a.Length ==> a[i] == null
    {
      if n == 0 {
        return null;
      }
      a := new OperationNode?[n](_ => null);
    }

    /** The image parameters and every buffer they have handed out lie outside the subtree. */
    ghost predicate Apart(ip: ImageParameters)
      reads this, ip
    {
      ip !in Repr && forall d :: d in ip.made ==> d !in Repr
    }

    /**
     * `compute(ip)`. `RGB_Space` throws. Every other class computes its children in slot
     * order, takes its own plane with `getPlane`, fills it row by row, and hands the
     * children's planes back with `putPlane` in slot order. The plane returned is the only
     * one that stays out, and it holds the subtree's cell at every column and row.
     */
    method Compute(ip: ImageParameters, f: Formula) returns (r: Result<Plane, Exception>)
      requires Valid() && Complete() && ip.Valid() && Apart(ip)
      modifies ip, ip.pool
      decreases Repr, 4
      ensures ip.Valid()
      ensures old(ip.made) <= ip.made && forall d :: d in ip.made ==> d in old(ip.made) || fresh(d)
      ensures forall d :: d in ip.pool ==> d in old(ip.pool) || d !in old(ip.made)
      ensures r.Failure? <==> !Colorless(old(Model()))
      ensures r.Failure? ==> r.error == Runtime
      ensures r.Success? ==> r.value !in old(ip.lent) && ip.lent == old(ip.lent) + {r.value}
      ensures r.Success? ==> r.value.data in old(ip.pool) || r.value.data !in old(ip.made)
      ensures r.Success? ==> Holds(r.value, old(Model()), f, ip)
    {
      if kind == RGBSpace {
        return Failure(Runtime);
      }
      ghost var m := Model();
      var params := Snapshots(values);
      KidsColorlessAll(m, 0);
      var planes := ComputeFrom(ip, f, 0);
      if planes.Failure? {
        return Failure(planes.error);
      }
      assert m.kids[0..] == m.kids;
      var out := Combine(ip, f, kind, params, points, m, planes.value, old(ip.lent), old(ip.pool), old(ip.made));
      return Success(out);
    }

    /**
     * The rest of `compute` once the children's planes are out: take this node's plane,
     * fill it, and hand the children's planes back. `lent`, `pool` and `made` are the pool's
     * sets before the children were computed.
     */
    static method Combine(ip: ImageParameters, f: Formula, kind: NodeKind, params: seq<Snapshot>, points: int,
                          ghost m: Expr, planes: seq<Plane>,
                          ghost lent: set<Plane>, ghost pool: set<array2<real>>, ghost made: set<array2<real>>)
      returns (out: Plane)
      requires WellFormed(m) && Colorless(m) && AllHold(planes, m.kids, f, ip)
      requires m.kind == kind && m.params == params && m.points == points
      requires ip.Valid() && Distinct(planes)
      requires forall p :: p in ip.lent <==> p in lent || p in planes
      requires forall k :: 0 <= k < |planes| ==> planes[k] !in lent && (planes[k].data in pool || planes[k].data !in made)
      requires forall d :: d in ip.pool ==> d in pool || d !in made
      modifies ip, ip.pool
      ensures ip.Valid()
      ensures ip.made == old(ip.made) || (fresh(out.data) && ip.made == old(ip.made) + {out.data})
      ensures forall d :: d in ip.pool ==> d in pool || d !in made
      ensures out !in lent && ip.lent == lent + {out}
      ensures out.data in pool || out.data !in made
      ensures Holds(out, m, f, ip)
    {
      out := ip.GetPlane();
      PlanesApart(ip, planes, out);
      FillPlane(out, kind, params, points, m, planes, ip, f);
      ReturnAll(ip, planes, pool, made);
    }

    /** The children's planes are other buffers than the one just taken, and of the grid's size. */
    static lemma PlanesApart(ip: ImageParameters, planes: seq<Plane>, out: Plane)
      requires ip.Valid() && out in ip.lent && forall k :: 0 <= k < |planes| ==> planes[k] in ip.lent && planes[k] != out
      ensures forall k :: 0 <= k < |planes| ==> planes[k].data != out.data && ip.Fits(planes[k])
    {
      forall k | 0 <= k < |planes|
        ensures planes[k].data != out.data && ip.Fits(planes[k])
      {
        ip.LentApart(planes[k], out);
      }
    }

    /** The row loop of `compute` on a fresh buffer: afterwards it holds the node's subtree at every cell. */
    static method FillPlane(out: Plane, kind: NodeKind, params: seq<Snapshot>, points: int, ghost m: Expr,
                            planes: seq<Plane>, ip: ImageParameters, f: Formula)
      requires WellFormed(m) && Colorless(m) && AllHold(planes, m.kids, f, ip)
      requires m.kind == kind && m.params == params && m.points == points
      requires ip.X.Length == ip.w && ip.Y.Length == ip.h && ip.Fits(out)
      requires forall k :: 0 <= k < |planes| ==> planes[k].data != out.data && ip.Fits(planes[k])
      modifies out.data
      ensures Holds(out, m, f, ip)
    {
      Fill(out, kind, params, points, planes, ip, f);
      FillHolds(out, planes, m, f, ip);
    }

    /** The children in slots i and after, computed in slot order; the first to throw ends it. */
    method ComputeFrom(ip: ImageParameters, f: Formula, i: nat) returns (r: Result<seq<Plane>, Exception>)
      requires Valid() && Complete() && i <= Arity(kind) && ip.Valid() && Apart(ip)
      modifies ip, ip.pool
      decreases Repr, 3 - i, 1
      ensures ip.Valid()
      ensures old(ip.made) <= ip.made && forall d :: d in ip.made ==> d in old(ip.made) || fresh(d)
      ensures forall d :: d in ip.pool ==> d in old(ip.pool) || d !in old(ip.made)
      ensures r.Failure? <==> !KidsColorlessFrom(old(Model()), i)
      ensures r.Failure? ==> r.error == Runtime
      ensures r.Success? ==> Distinct(r.value) && forall p :: p in ip.lent <==> p in old(ip.lent) || p in r.value
      ensures r.Success? ==> forall k :: 0 <= k < |r.value| ==>
        r.value[k] !in old(ip.lent) && (r.value[k].data in old(ip.pool) || r.value[k].data !in old(ip.made))
      ensures r.Success? ==> AllHold(r.value, old(Model()).kids[i..], f, ip)
    {
      if i == Arity(kind) {
        return Success([]);
      }
      ModelKid(i);
      label Before:
      var a := children[i].Compute(ip, f);
      if a.Failure? {
        return Failure(a.error);
      }
      NodeKept@Before(this);
      r := ComputeRest(ip, f, i, a.value, old(ip.lent), old(ip.pool), old(ip.made));
    }

    /**
     * The children in the slots after i, once slot i's plane `a` is out; the planes start with `a`.
     * `lent`, `pool` and `made` are the pool's sets before slot i was computed.
     */
    method ComputeRest(ip: ImageParameters, f: Formula, i: nat, a: Plane,
                       ghost lent: set<Plane>, ghost pool: set<array2<real>>, ghost made: set<array2<real>>)
      returns (r: Result<seq<Plane>, Exception>)
      requires Valid() && Complete() && i < Arity(kind) && ip.Valid() && Apart(ip)
      requires Holds(a, Model().kids[i], f, ip)
      requires a !in lent && ip.lent == lent + {a} && (a.data in pool || a.data !in made)
      requires made <= ip.made && forall d :: d in ip.pool ==> d in pool || d !in made
      modifies ip, ip.pool
      decreases Repr, 3 - i, 0
      ensures ip.Valid()
      ensures old(ip.made) <= ip.made && forall d :: d in ip.made ==> d in old(ip.made) || fresh(d)
      ensures forall d :: d in ip.pool ==> d in pool || d !in made
      ensures r.Failure? <==> !KidsColorlessFrom(old(Model()), i + 1)
      ensures r.Failure? ==> r.error == Runtime
      ensures r.Success? ==> |r.value| > 0 && r.value[0] == a && Distinct(r.value)
      ensures r.Success? ==> forall p :: p in ip.lent <==> p in lent || p in r.value
      ensures r.Success? ==> forall k :: 0 <= k < |r.value| ==>
        r.value[k] !in lent && (r.value[k].data in pool || r.value[k].data !in made)
      ensures r.Success? ==> AllHold(r.value, old(Model()).kids[i..], f, ip)
    {
      ghost var m := Model();
      ghost var lentMid, poolMid, madeMid := ip.lent, ip.pool, ip.made;
      assert a.data !in ip.pool;
      var rest := ComputeFrom(ip, f, i + 1);
      if rest.Failure? {
        return Failure(rest.error);
      }
      var out := [a] + rest.value;
      RestJoined(a, rest.value, out, m.kids[i..], f, ip, lent, lentMid, pool, made, poolMid, madeMid);
      return Success(out);
    }

    /**
     * The double loop of every class's `compute`: rows outer, columns inner, each cell from
     * the children's cells at the same place and the place's logical (x, y).
     */
    static method Fill(out: Plane, kind: NodeKind, params: seq<Snapshot>, points: int, kids: seq<Plane>,
                       ip: ImageParameters, f: Formula)
      requires kind != RGBSpace && |kids| == Arity(kind) && ParamsFit(params, Shape(kind))
      requires ip.X.Length == ip.w && ip.Y.Length == ip.h && ip.Fits(out)
      requires forall k :: 0 <= k < |kids| ==>
        kids[k].data.Length0 == ip.w && kids[k].data.Length1 == ip.h && kids[k].data != out.data
      modifies out.data
      ensures forall i, j :: 0 <= i < ip.w && 0 <= j < ip.h ==>
        out.data[i, j] == Cell(f, kind, params, points, CellsAt(kids, i, j), ip.X[i], ip.Y[j])
    {
      var j := 0;
      while j < ip.h
        invariant 0 <= j <= ip.h
        invariant forall i', j' :: 0 <= i' < ip.w && 0 <= j' < j ==>
          out.data[i', j'] == Cell(f, kind, params, points, CellsAt(kids, i', j'), ip.X[i'], ip.Y[j'])
      {
        var i := 0;
        while i < ip.w
          invariant 0 <= i <= ip.w
          invariant forall i', j' :: 0 <= i' < ip.w && 0 <= j' < j ==>
            out.data[i', j'] == Cell(f, kind, params, points, CellsAt(kids, i', j'), ip.X[i'], ip.Y[j'])
          invariant forall i' :: 0 <= i' < i ==>
            out.data[i', j] == Cell(f, kind, params, points, CellsAt(kids, i', j), ip.X[i'], ip.Y[j])
        {
          out.data[i, j] := Cell(f, kind, params, points, CellsAt(kids, i, j), ip.X[i], ip.Y[j]);
          i := i + 1;
        }
        j := j + 1;
      }
    }

    /** The cells `Fill` writes from planes holding the children are the subtree's own. */
    static lemma FillHolds(out: Plane, kids: seq<Plane>, m: Expr, f: Formula, ip: ImageParameters)
      requires WellFormed(m) && Colorless(m) && AllHold(kids, m.kids, f, ip)
      requires ip.X.Length == ip.w && ip.Y.Length == ip.h && ip.Fits(out)
      requires forall k :: 0 <= k < |kids| ==> kids[k].data.Length0 == ip.w && kids[k].data.Length1 == ip.h
      requires forall i, j :: 0 <= i < ip.w && 0 <= j < ip.h ==>
        out.data[i, j] == Cell(f, m.kind, m.params, m.points, CellsAt(kids, i, j), ip.X[i], ip.Y[j])
      ensures Holds(out, m, f, ip)
    {
      forall i, j | 0 <= i < ip.w && 0 <= j < ip.h
        ensures out.data[i, j] == Eval(f, m, ip.X[i], ip.Y[j])
      {
        KidsCells(kids, m, f, ip, i, j);
      }
    }

    /** `ip.putPlane` on each of the planes, in order. */
    static method ReturnAll(ip: ImageParameters, ps: seq<Plane>, ghost pool: set<array2<real>>, ghost made: set<array2<real>>)
      requires ip.Valid() && Distinct(ps) && forall k :: 0 <= k < |ps| ==> ps[k] in ip.lent
      requires forall k :: 0 <= k < |ps| ==> ps[k].data in pool || ps[k].data !in made
      modifies ip
      decreases |ps|
      ensures ip.Valid()
      ensures forall p :: p in ip.lent <==> p in old(ip.lent) && p !in ps
      ensures ip.gets == old(ip.gets) && ip.puts == old(ip.puts) + |ps|
      ensures ip.cache == ip.CacheAfter(old(ip.cache), old(ip.gets - ip.puts), ps)
      ensures ip.made == old(ip.made)
      ensures forall d :: d in ip.pool ==> d in old(ip.pool) || d in pool || d !in made
    {
      if |ps| > 0 {
        ip.PutPlane(ps[0]);
        assert forall k :: 0 <= k < |ps| - 1 ==> ps[1..][k] == ps[k + 1];
        ReturnAll(ip, ps[1..], pool, made);
      }
    }

    /**
     * `RGB_Space.compute(ip, true)`: the red, green and blue children's planes in that order,
     * then the frame, then the three planes handed back in the same order. Only the frame
     * stays out of the pool.
     */
    method Pixels(ip: ImageParameters, f: Formula) returns (r: Result<array<byte>, Exception>)
      requires Valid() && Complete() && kind == RGBSpace && ip.Valid() && Apart(ip)
      modifies ip, ip.pool
      ensures ip.Valid()
      ensures old(ip.made) <= ip.made && forall d :: d in ip.made ==> d in old(ip.made) || fresh(d)
      ensures forall d :: d in ip.pool ==> d in old(ip.pool) || d !in old(ip.made)
      ensures r.Failure? <==> !Paintable(old(Model())) || PixLength(ip.w, ip.h) != 3 * (ip.w * ip.h)
      ensures r.Failure? && !Paintable(old(Model())) ==> r.error == Runtime
      ensures r.Failure? && Paintable(old(Model())) ==>
                r.error == (if PixLength(ip.w, ip.h) < 0 then NegativeArraySize else IndexOutOfBounds)
      ensures r.Success? ==> fresh(r.value) && ip.lent == old(ip.lent)
      ensures r.Success? ==> r.value[..] == Frame(f, old(Model()), ip.X[..], ip.Y[..])
    {
      ghost var m := Model();
      KidsColorlessAll(m, 0);
      var planes := ComputeFrom(ip, f, 0);
      if planes.Failure? {
        return Failure(planes.error);
      }
      assert m.kids[0..] == m.kids;
      r := Paint(ip, f, m, planes.value, old(ip.lent), old(ip.pool), old(ip.made));
    }

    /**
     * The rest of `RGB_Space.compute` once the three planes are out: the buffer of
     * `w * h * 3` bytes in `int` arithmetic, the frame, then the planes handed back. A
     * negative length throws at the allocation. A length that wrapped to a smaller
     * non-negative value lets the loop run past the buffer's end, which throws before any
     * plane is handed back; the bytes written until then are lost with the buffer, so the
     * model throws at once. `lent`, `pool` and `made` are the pool's sets before the children
     * were computed.
     */
    static method Paint(ip: ImageParameters, f: Formula, ghost m: Expr, planes: seq<Plane>,
                        ghost lent: set<Plane>, ghost pool: set<array2<real>>, ghost made: set<array2<real>>)
      returns (r: Result<array<byte>, Exception>)
      requires Paintable(m) && AllHold(planes, m.kids, f, ip)
      requires ip.Valid() && Distinct(planes)
      requires forall p :: p in ip.lent <==> p in lent || p in planes
      requires forall k :: 0 <= k < |planes| ==> planes[k] !in lent && (planes[k].data in pool || planes[k].data !in made)
      requires forall d :: d in ip.pool ==> d in pool || d !in made
      modifies ip, ip.pool
      ensures ip.Valid() && ip.made == old(ip.made)
      ensures forall d :: d in ip.pool ==> d in pool || d !in made
      ensures r.Failure? <==> PixLength(ip.w, ip.h) != 3 * (ip.w * ip.h)
      ensures r.Failure? ==> ip.lent == old(ip.lent)
      ensures r.Failure? ==> r.error == (if PixLength(ip.w, ip.h) < 0 then NegativeArraySize else IndexOutOfBounds)
      ensures r.Success? ==> ip.lent == lent
      ensures r.Success? ==> fresh(r.value) && r.value[..] == Frame(f, m, ip.X[..], ip.Y[..])
    {
      var size := PixLength(ip.w, ip.h);
      if size < 0 {
        return Failure(NegativeArraySize);
      }
      if size != 3 * (ip.w * ip.h) {
        return Failure(IndexOutOfBounds);
      }
      var pix := new byte[size];
      FillPixels(pix, planes, ip.w, ip.h);
      FrameFromPlanes(pix[..], planes, m, f, ip);
      ReturnAll(ip, planes, pool, made);
      return Success(pix);
    }

    /** The loop of `RGB_Space.compute`: rows from the bottom up, columns left to right, blue, green, red. */
    static method FillPixels(pix: array<byte>, ps: seq<Plane>, w: nat, h: nat)
      requires pix.Length == 3 * (w * h)
      requires |ps| == 3 && forall k :: 0 <= k < 3 ==> ps[k].data.Length0 == w && ps[k].data.Length1 == h
      modifies pix
      ensures forall n :: 0 <= n < pix.Length ==> pix[n] == PlaneByte(ps, w, h, n)
    {
      var y: int := h - 1;
      while y >= 0
        invariant -1 <= y < h
        invariant forall n :: 0 <= n < 3 * ((h - 1 - y) * w) ==> pix[n] == PlaneByte(ps, w, h, n)
      {
        FillRow(pix, ps, w, h, y);
        assert (h - 1 - (y - 1)) * w == (h - 1 - y) * w + w;
        y := y - 1;
      }
    }

    /** The inner loop of `RGB_Space.compute`: the columns of row y, written after the rows below it. */
    static method FillRow(pix: array<byte>, ps: seq<Plane>, w: nat, h: nat, y: nat)
      requires y < h && pix.Length == 3 * (w * h)
      requires |ps| == 3 && forall k :: 0 <= k < 3 ==> ps[k].data.Length0 == w && ps[k].data.Length1 == h
      requires forall n :: 0 <= n < 3 * ((h - 1 - y) * w) ==> pix[n] == PlaneByte(ps, w, h, n)
      modifies pix
      ensures forall n :: 0 <= n < 3 * ((h - 1 - y) * w + w) ==> pix[n] == PlaneByte(ps, w, h, n)
    {
      ghost var row := (h - 1 - y) * w;
      var index := 3 * ((h - 1 - y) * w);
      var x := 0;
      while x < w
        invariant 0 <= x <= w
        invariant index == 3 * (row + x)
        invariant forall n :: 0 <= n < index ==> pix[n] == PlaneByte(ps, w, h, n)
      {
        PixelDecode(w, h, x, y, 0);
        PixelDecode(w, h, x, y, 1);
        PixelDecode(w, h, x, y, 2);
        pix[index] := Channel(ps[2].data[x, y]);
        pix[index + 1] := Channel(ps[1].data[x, y]);
        pix[index + 2] := Channel(ps[0].data[x, y]);
        index := index + 3;
        x := x + 1;
      }
    }

    /** Planes holding the red, green and blue children give the tree's frame byte for byte. */
    static lemma FrameFromPlanes(pix: seq<byte>, ps: seq<Plane>, m: Expr, f: Formula, ip: ImageParameters)
      requires Paintable(m) && AllHold(ps, m.kids, f, ip)
      requires ip.X.Length == ip.w && ip.Y.Length == ip.h && |pix| == 3 * (ip.w * ip.h)
      requires forall n :: 0 <= n < |pix| ==> pix[n] == PlaneByte(ps, ip.w, ip.h, n)
      ensures pix == Frame(f, m, ip.X[..], ip.Y[..])
    {
      forall n | 0 <= n < |pix|
        ensures pix[n] == FrameByte(f, m, ip.X[..], ip.Y[..], n)
      {
        PixelCovers(ip.w, ip.h, n);
      }
    }

    /**
     * The parameters and point count are what the class's seed constructor makes from the
     * doubles `t`: one per parameter (two for a position), then `Flower`'s point count.
     */
    ghost predicate SeededBy(t: seq<Seeds.Draw>)
      reads this, Targets(values)
    {
      DrawCountOfShape(kind);
      |t| == DrawCount(kind) && AllDoubles(t) &&
      Snapshots(values) == Drawn(Shape(kind), t[..DrawsForAll(Shape(kind))]) &&
      points == (if kind == Flower then PointsFrom(t[|t| - 1].d) else 0)
    }

    /** The draws of a class's seed constructor: its parameters, then for `Flower` `(int)(d * 11) + 1`. */
    static method DrawAll(shape: seq<ValueKind>, flower: bool, s: Seeds.Seed)
      returns (vs: seq<Value>, n: int, ghost t: seq<Seeds.Draw>)
      requires s.Valid()
      modifies s, s.Footprint()
      ensures s.Valid() && s.log == old(s.log) + t && |t| == DrawsForAll(shape) + (if flower then 1 else 0)
      ensures AllDoubles(t) && ValuesFit(vs, shape) && fresh(Targets(vs))
      ensures Snapshots(vs) == Drawn(shape, t[..DrawsForAll(shape)])
      ensures n == (if flower then PointsFrom(t[|t| - 1].d) else 0)
    {
      ghost var t0;
      vs, t0 := DrawValues(shape, s);
      n := 0;
      t := t0;
      if flower {
        ghost var snaps := Snapshots(vs);
        TargetsAllocated(vs);
        assert s !in Targets(vs) && Targets(vs) !! s.Footprint();
        var d := s.NextDouble();
        assert Snapshots(vs) == snaps;
        n := PointsFrom(d);
        t := t0 + [Seeds.DrewDouble(d)];
        LogsAppend(old(s.log), t0, [Seeds.DrewDouble(d)], s.log);
      }
      assert t[..|t0|] == t0;
    }

    /** Draws the parameters of a shape in order, each from its own seed constructor. */
    static method DrawValues(shape: seq<ValueKind>, s: Seeds.Seed) returns (vs: seq<Value>, ghost t: seq<Seeds.Draw>)
      requires s.Valid()
      modifies s, s.Footprint()
      decreases |shape|
      ensures s.Valid() && s.log == old(s.log) + t && |t| == DrawsForAll(shape) && AllDoubles(t)
      ensures ValuesFit(vs, shape) && fresh(Targets(vs))
      ensures Snapshots(vs) == Drawn(shape, t)
    {
      if |shape| == 0 {
        return [], [];
      }
      var v, t0 := DrawValue(shape[0], s);
      label Head:
      var rest, t1 := DrawValues(shape[1..], s);
      SnapshotKept@Head(v);
      vs := [v] + rest;
      t := t0 + t1;
      LogsAppend(old(s.log), t0, t1, s.log);
      DrawnStep(v, rest, shape, t0, t1);
    }

    /** One parameter from the seed constructor of its kind. */
    static method DrawValue(k: ValueKind, s: Seeds.Seed) returns (v: Value, ghost t: seq<Seeds.Draw>)
      requires s.Valid()
      modifies s, s.Footprint()
      ensures s.Valid() && s.log == old(s.log) + t && |t| == DrawsFor(k) && AllDoubles(t)
      ensures ValueFits(v, k) && fresh(Target(v)) && Target(v) != s && Target(v) !in s.Footprint()
      ensures SnapshotOf(v) == FirstDrawn(k, t)
    {
      ghost var log0 := s.log;
      if k.BoundedIn? {
        var b := new Bounded.FromSeed(s, k.lower, k.upper);
        v := BoundedValue(b);
      } else if k.WrappingIn? {
        var w := new Wrapping.FromSeed(s, k.lower, k.upper);
        v := WrappingValue(w);
      } else {
        var p := new Position.FromSeed(s);
        v := PositionValue(p);
      }
      t := s.log[|log0|..];
      assert s.log == log0 + t;
    }
  }

  lemma TargetsAllocated(vs: seq<Value>)
    ensures forall o :: o in Targets(vs) ==> allocated(o)
  {
    if |vs| > 0 {
      TargetsAllocated(vs[1..]);
    }
  }

  /** The parameter objects are `Bounded`, `Wrapping` and `Position` objects: never a node or a slot array. */
  lemma TargetsAreValues(vs: seq<Value>)
    ensures forall o :: o in Targets(vs) ==> o is Bounded || o is Wrapping || o is Position
  {
    if |vs| > 0 {
      TargetsAreValues(vs[1..]);
    }
  }

  /** `kids` laid over the front of `slots`, as far as both reach. */
  function Overlay<T>(kids: seq<T>, slots: seq<T>): (r: seq<T>)
    ensures |r| == |slots|
    ensures forall i :: 0 <= i < |slots| ==> r[i] == if i < |kids| then kids[i] else slots[i]
  {
    seq(|slots|, i requires 0 <= i < |slots| => if i < |kids| then kids[i] else slots[i])
  }

  lemma OverlayStep<T>(kids: seq<T>, i: nat, slots: seq<T>)
    requires i < |kids| && i < |slots|
    ensures Overlay(kids[..i], slots)[i := kids[i]] == Overlay(kids[..i + 1], slots)
  {
  }

  lemma OverlayLonger<T>(kids: seq<T>, n: nat, slots: seq<T>)
    requires n == |slots| && n <= |kids|
    ensures Overlay(kids[..n], slots) == Overlay(kids, slots)
  {
  }

  lemma SnapshotsAppend(a: seq<Value>, b: seq<Value>)
    ensures Snapshots(a + b) == Snapshots(a) + Snapshots(b)
    decreases |a|
  {
    if |a| > 0 {
      assert (a + b)[1..] == a[1..] + b;
      SnapshotsAppend(a[1..], b);
    } else {
      assert a + b == b;
    }
  }

  /** The parameters of a subtree in pre-order: the node's own, then each child's subtree in turn. */
  function PreOrder(e: Expr): seq<Snapshot>
    decreases e, |e.kids| + 1
  {
    e.params + PreOrderFrom(e, 0)
  }

  function PreOrderFrom(e: Expr, i: nat): seq<Snapshot>
    requires i <= |e.kids|
    decreases e, |e.kids| - i
  {
    if i == |e.kids| then [] else PreOrder(e.kids[i]) + PreOrderFrom(e, i + 1)
  }

  /** Everything the given nodes own. */
  ghost function KidsRepr(kids: seq<OperationNode?>): set<object>
    reads set k | 0 <= k < |kids| && kids[k] != null :: kids[k]
  {
    if |kids| == 0 then {} else (if kids[0] == null then {} else kids[0].Repr) + KidsRepr(kids[1..])
  }

  lemma KidsReprAllocated(kids: seq<OperationNode?>)
    ensures forall o :: o in KidsRepr(kids) ==> allocated(o)
  {
    if |kids| > 0 {
      KidsReprAllocated(kids[1..]);
    }
  }

  /** The footprints of nodes none of whose fields changed are the same. */
  twostate lemma KidsReprKept(kids: seq<OperationNode>)
    requires unchanged(kids)
    ensures KidsRepr(kids) == old(KidsRepr(kids))
  {
  }

  /** Parameters none of whose objects changed hold the same numbers. */
  twostate lemma SnapshotsKept(vs: seq<Value>)
    requires forall o :: o in Targets(vs) ==> old(allocated(o))
    requires unchanged(Targets(vs))
    ensures Snapshots(vs) == old(Snapshots(vs))
  {
  }

  /** Each of the given nodes is a complete subtree with the model at the same index. */
  ghost predicate Copies(kids: seq<OperationNode>, ms: seq<Expr>)
    reads set k | 0 <= k < |kids| :: kids[k]
    reads KidsRepr(kids)
  {
    KidsReprHas(kids);
    |kids| == |ms| && forall k :: 0 <= k < |kids| ==> kids[k].CopyOf(ms[k])
  }

  /** `Copies`, with a footprint given as a set that holds every one of the nodes' objects. */
  ghost predicate CopiesWithin(kids: seq<OperationNode>, ms: seq<Expr>, owned: set<object>)
    reads owned
  {
    (forall k :: 0 <= k < |kids| ==> kids[k] in owned && kids[k].Repr <= owned) &&
    |kids| == |ms| && forall k :: 0 <= k < |kids| ==> kids[k].CopyOf(ms[k])
  }

  lemma CopiesWithinSnoc(kids: seq<OperationNode>, ms: seq<Expr>, owned: set<object>, n: OperationNode, m: Expr)
    requires CopiesWithin(kids, ms, owned) && n.CopyOf(m)
    ensures CopiesWithin(kids + [n], ms + [m], owned + n.Repr)
  {
    forall k | 0 <= k < |kids| + 1
      ensures (kids + [n])[k] in owned + n.Repr && (kids + [n])[k].Repr <= owned + n.Repr
    {
      if k < |kids| {
        assert (kids + [n])[k] == kids[k];
      }
    }
    forall k | 0 <= k < |kids| + 1
      ensures (kids + [n])[k].CopyOf((ms + [m])[k])
    {
      if k < |kids| {
        assert (kids + [n])[k] == kids[k] && (ms + [m])[k] == ms[k];
      }
    }
  }

  /** The footprint of copies held in a set lies in that set, and they are `Copies`. */
  lemma CopiesFromWithin(kids: seq<OperationNode>, ms: seq<Expr>, owned: set<object>)
    requires CopiesWithin(kids, ms, owned)
    ensures KidsRepr(kids) <= owned && Copies(kids, ms)
  {
    if |kids| > 0 {
      assert CopiesWithin(kids[1..], ms[1..], owned) by {
        forall k | 0 <= k < |kids| - 1
          ensures kids[1..][k].CopyOf(ms[1..][k])
        {
          assert kids[1..][k] == kids[k + 1] && ms[1..][k] == ms[k + 1];
        }
      }
      CopiesFromWithin(kids[1..], ms[1..], owned);
      assert kids[0].CopyOf(ms[0]);
    }
    KidsReprHas(kids);
  }

  lemma CopiesCons(kids: seq<OperationNode>, ms: seq<Expr>)
    requires |kids| > 0 && |ms| > 0 && kids[0].CopyOf(ms[0]) && Copies(kids[1..], ms[1..])
    ensures Copies(kids, ms)
  {
    KidsReprHas(kids);
    forall k | 0 < k < |kids|
      ensures kids[k].CopyOf(ms[k])
    {
      assert kids[k] == kids[1..][k - 1];
    }
  }

  /** A copy of model i in front of copies of the models after it copies the models from i on. */
  lemma CopiesPrepend(c: OperationNode, rest: seq<OperationNode>, ms: seq<Expr>, i: nat)
    requires i < |ms| && c.CopyOf(ms[i]) && Copies(rest, ms[i + 1..])
    ensures Copies([c] + rest, ms[i..]) && KidsRepr([c] + rest) == c.Repr + KidsRepr(rest)
  {
    var out := [c] + rest;
    assert out[1..] == rest;
    assert ms[i..][1..] == ms[i + 1..];
    CopiesCons(out, ms[i..]);
  }

  /** One more node at the end of a list brings its footprint. */
  lemma KidsReprSnoc(kids: seq<OperationNode?>, n: OperationNode)
    ensures KidsRepr(kids + [n]) == KidsRepr(kids) + n.Repr
  {
    if |kids| == 0 {
      assert kids + [n] == [n];
    } else {
      assert (kids + [n])[1..] == kids[1..] + [n];
      KidsReprSnoc(kids[1..], n);
    }
  }

  lemma CopiesSnoc(kids: seq<OperationNode>, ms: seq<Expr>, n: OperationNode, m: Expr)
    requires Copies(kids, ms) && n.CopyOf(m)
    ensures Copies(kids + [n], ms + [m])
  {
    KidsReprHas(kids + [n]);
    forall k | 0 <= k < |kids|
      ensures (kids + [n])[k].CopyOf((ms + [m])[k])
    {
      assert (kids + [n])[k] == kids[k] && (ms + [m])[k] == ms[k];
    }
  }

  /** The models a list of copies stands for are well formed. */
  lemma CopiesWellFormed(kids: seq<OperationNode>, ms: seq<Expr>)
    requires Copies(kids, ms)
    ensures forall k :: 0 <= k < |ms| ==> WellFormed(ms[k])
  {
    forall k | 0 <= k < |ms|
      ensures WellFormed(ms[k])
    {
      assert kids[k].CopyOf(ms[k]);
    }
  }

  lemma KidsReprHas(kids: seq<OperationNode?>)
    ensures forall k :: 0 <= k < |kids| && kids[k] != null ==> kids[k].Repr <= KidsRepr(kids)
  {
    if |kids| > 0 {
      KidsReprHas(kids[1..]);
      assert forall k :: 0 < k < |kids| ==> kids[k] == kids[1..][k - 1];
    }
  }

  lemma LogSuffix(a: seq<Seeds.Draw>, t: seq<Seeds.Draw>, d: seq<Seeds.Draw>)
    requires d == a + t
    ensures |d| == |a| + |t| && d[..|a|] == a && d[|a|..] == t
  {
  }

  lemma LogsAppend(a: seq<Seeds.Draw>, b: seq<Seeds.Draw>, c: seq<Seeds.Draw>, d: seq<Seeds.Draw>)
    requires d == (a + b) + c
    ensures d == a + (b + c)
  {
  }

  lemma AppendAssoc<T>(a: seq<T>, b: seq<T>, c: seq<T>)
    ensures (a + b) + c == a + (b + c)
  {
  }

  lemma DrawnStep(v: Value, rest: seq<Value>, shape: seq<ValueKind>, t0: seq<Seeds.Draw>, t1: seq<Seeds.Draw>)
    requires |shape| > 0 && |t0| == DrawsFor(shape[0]) && |t1| == DrawsForAll(shape[1..])
    requires AllDoubles(t0) && AllDoubles(t1)
    requires ValueFits(v, shape[0]) && ValuesFit(rest, shape[1..])
    requires SnapshotOf(v) == FirstDrawn(shape[0], t0) && Snapshots(rest) == Drawn(shape[1..], t1)
    ensures AllDoubles(t0 + t1) && |t0 + t1| == DrawsForAll(shape)
    ensures ValuesFit([v] + rest, shape) && Targets([v] + rest) == {Target(v)} + Targets(rest)
    ensures Snapshots([v] + rest) == Drawn(shape, t0 + t1)
  {
    DrawnFront(shape, t0, t1);
    SnapshotsFront(v, rest, shape);
  }

  lemma DrawnFront(shape: seq<ValueKind>, t0: seq<Seeds.Draw>, t1: seq<Seeds.Draw>)
    requires |shape| > 0 && |t0| == DrawsFor(shape[0]) && |t1| == DrawsForAll(shape[1..])
    requires AllDoubles(t0) && AllDoubles(t1)
    ensures AllDoubles(t0 + t1) && |t0 + t1| == DrawsForAll(shape)
    ensures Drawn(shape, t0 + t1) == [FirstDrawn(shape[0], t0)] + Drawn(shape[1..], t1)
  {
    assert (t0 + t1)[|t0|..] == t1;
  }

  lemma SnapshotsFront(v: Value, rest: seq<Value>, shape: seq<ValueKind>)
    requires |shape| > 0 && ValueFits(v, shape[0]) && ValuesFit(rest, shape[1..])
    ensures Snapshots([v] + rest) == [SnapshotOf(v)] + Snapshots(rest)
    ensures Targets([v] + rest) == {Target(v)} + Targets(rest)
    ensures ValuesFit([v] + rest, shape)
  {
    assert ([v] + rest)[1..] == rest;
  }

  /** Every entry is a double. */
  ghost predicate AllDoubles(t: seq<Seeds.Draw>) {
    forall i :: 0 <= i < |t| ==> t[i].DrewDouble?
  }

  /** The parameter one seed constructor makes from the doubles at the front of `t`. */
  function FirstDrawn(k: ValueKind, t: seq<Seeds.Draw>): Snapshot
    requires |t| >= DrawsFor(k) && (forall i :: 0 <= i < |t| ==> t[i].DrewDouble?)
  {
    if k.BoundedIn? then BoundedSnapshot(Scale(t[0].d, k.lower, k.upper), k.lower, k.upper)
    else if k.WrappingIn? then WrappingSnapshot(Scale(t[0].d, k.lower, k.upper), k.lower, k.upper)
    else PositionSnapshot(Coordinate(t[0].d), Coordinate(t[1].d))
  }

  /** The parameters a shape's seed constructors make from the doubles they draw. */
  function Drawn(shape: seq<ValueKind>, t: seq<Seeds.Draw>): seq<Snapshot>
    requires |t| == DrawsForAll(shape) && (forall i :: 0 <= i < |t| ==> t[i].DrewDouble?)
  {
    if |shape| == 0 then []
    else
      var k := DrawsFor(shape[0]);
      [FirstDrawn(shape[0], t)] +
      Drawn(shape[1..], t[k..])
  }

  /** The children from index i on contain no `RGB_Space`. */
  predicate KidsColorlessFrom(e: Expr, i: nat)
    decreases |e.kids| - i
  {
    i >= |e.kids| || (Colorless(e.kids[i]) && KidsColorlessFrom(e, i + 1))
  }

  lemma {:induction false} KidsColorlessAll(e: Expr, i: nat)
    ensures KidsColorlessFrom(e, i) <==> forall k :: i <= k < |e.kids| ==> Colorless(e.kids[k])
    decreases |e.kids| - i
  {
    if i < |e.kids| {
      KidsColorlessAll(e, i + 1);
    }
  }

  /** The plane has the image's size and holds the subtree's cell at every column and row. */
  ghost predicate Holds(p: Plane, e: Expr, f: Formula, ip: ImageParameters)
    reads p.data, ip.X, ip.Y
  {
    WellFormed(e) && Colorless(e) && ip.Fits(p) && ip.X.Length == ip.w && ip.Y.Length == ip.h &&
    forall i, j :: 0 <= i < ip.w && 0 <= j < ip.h ==> p.data[i, j] == Eval(f, e, ip.X[i], ip.Y[j])
  }

  /** Each plane holds the subtree at the same position. */
  ghost predicate AllHold(ps: seq<Plane>, es: seq<Expr>, f: Formula, ip: ImageParameters)
    reads set k | 0 <= k < |ps| :: ps[k].data
    reads ip.X, ip.Y
  {
    |ps| == |es| && forall k :: 0 <= k < |ps| ==> Holds(ps[k], es[k], f, ip)
  }

  /** Slot i's plane in front of the planes of the later slots: the facts `ComputeRest` returns. */
  lemma RestJoined(a: Plane, rest: seq<Plane>, out: seq<Plane>, es: seq<Expr>, f: Formula, ip: ImageParameters,
                   lent: set<Plane>, lentMid: set<Plane>, pool: set<array2<real>>, made: set<array2<real>>,
                   poolMid: set<array2<real>>, madeMid: set<array2<real>>)
    requires out == [a] + rest && |es| > 0
    requires Holds(a, es[0], f, ip) && AllHold(rest, es[1..], f, ip)
    requires a !in lent && lentMid == lent + {a} && (a.data in pool || a.data !in made) && made <= madeMid
    requires forall d :: d in poolMid ==> d in pool || d !in made
    requires Distinct(rest) && forall p :: p in ip.lent <==> p in lentMid || p in rest
    requires forall k :: 0 <= k < |rest| ==> rest[k] !in lentMid && (rest[k].data in poolMid || rest[k].data !in madeMid)
    ensures Distinct(out) && AllHold(out, es, f, ip)
    ensures forall p :: p in ip.lent <==> p in lent || p in out
    ensures forall k :: 0 <= k < |out| ==> out[k] !in lent && (out[k].data in pool || out[k].data !in made)
  {
    AllHoldCons(a, rest, es, f, ip);
    DistinctCons(a, rest, lentMid);
    assert out[1..] == rest;
    LentJoin(lent, lentMid, ip.lent, out);
    SourcesJoin(pool, made, poolMid, madeMid, out);
  }

  lemma AllHoldCons(p: Plane, ps: seq<Plane>, es: seq<Expr>, f: Formula, ip: ImageParameters)
    requires |es| > 0 && Holds(p, es[0], f, ip) && AllHold(ps, es[1..], f, ip)
    ensures AllHold([p] + ps, es, f, ip)
  {
    assert forall k :: 0 < k < |ps| + 1 ==> ([p] + ps)[k] == ps[k - 1] && es[k] == es[1..][k - 1];
  }

  /**
   * Planes borrowed in two steps, the first one (taking `lent` from `l0` to `l1`) then the
   * rest (taking it to `l2`), are planes borrowed in one.
   */
  lemma LentJoin(l0: set<Plane>, l1: set<Plane>, l2: set<Plane>, ps: seq<Plane>)
    requires |ps| > 0 && ps[0] !in l0 && l1 == l0 + {ps[0]}
    requires forall p :: p in l2 <==> p in l1 || p in ps[1..]
    requires forall k :: 0 < k < |ps| ==> ps[k] !in l1
    ensures forall p :: p in l2 <==> p in l0 || p in ps
    ensures forall k :: 0 <= k < |ps| ==> ps[k] !in l0
  {
    assert forall p :: p in ps <==> p == ps[0] || p in ps[1..];
  }

  /**
   * Where the buffers come from, across the same two steps: each is one the pool held at
   * the start, or one made since.
   */
  lemma SourcesJoin(pool0: set<array2<real>>, made0: set<array2<real>>,
                    pool1: set<array2<real>>, made1: set<array2<real>>, ps: seq<Plane>)
    requires made0 <= made1 && |ps| > 0
    requires ps[0].data in pool0 || ps[0].data !in made0
    requires forall d :: d in pool1 ==> d in pool0 || d !in made0
    requires forall k :: 0 < k < |ps| ==> ps[k].data in pool1 || ps[k].data !in made1
    ensures forall k :: 0 <= k < |ps| ==> ps[k].data in pool0 || ps[k].data !in made0
  {
  }

  /** No plane appears twice. */
  predicate Distinct(ps: seq<Plane>) {
    forall k, l :: 0 <= k < l < |ps| ==> ps[k] != ps[l]
  }

  lemma DistinctCons(p: Plane, ps: seq<Plane>, held: set<Plane>)
    requires p in held && Distinct(ps) && forall k :: 0 <= k < |ps| ==> ps[k] !in held
    ensures Distinct([p] + ps)
  {
    assert forall k :: 0 < k < |ps| + 1 ==> ([p] + ps)[k] == ps[k - 1];
  }

  /** The cells of the planes at column i, row j. */
  function CellsAt(ps: seq<Plane>, i: int, j: int): (r: seq<real>)
    requires forall k :: 0 <= k < |ps| ==> i < ps[k].data.Length0 && j < ps[k].data.Length1
    requires 0 <= i && 0 <= j
    reads set k | 0 <= k < |ps| :: ps[k].data
    ensures |r| == |ps| && forall k :: 0 <= k < |ps| ==> r[k] == ps[k].data[i, j]
  {
    seq(|ps|, k requires 0 <= k < |ps| reads set l | 0 <= l < |ps| :: ps[l].data => ps[k].data[i, j])
  }

  /** Planes holding a node's children give, cell by cell, the node's own cells. */
  lemma KidsCells(ps: seq<Plane>, e: Expr, f: Formula, ip: ImageParameters, i: int, j: int)
    requires WellFormed(e) && Colorless(e) && AllHold(ps, e.kids, f, ip)
    requires ip.X.Length == ip.w && ip.Y.Length == ip.h && 0 <= i < ip.w && 0 <= j < ip.h
    ensures CellsAt(ps, i, j) == EvalKids(f, e, ip.X[i], ip.Y[j])
  {
  }

  /**
   * `(byte)Math.floor((v + 1) / 2 * 255)`: the floor is narrowed to `int` (saturating at
   * the ends) and then to its low eight bits, kept here as the unsigned `b & 0xFF`.
   */
  function Channel(v: real): (b: byte)
    ensures -1.0 <= v < 1.0 ==> b == ((v + 1.0) * 255.0 / 2.0).Floor
    ensures v == 1.0 ==> b == 255
  {
    var d := ((v + 1.0) / 2.0 * 255.0).Floor;
    var n := if d < INT_MIN then INT_MIN else if d > INT_MAX then INT_MAX else d;
    n % 256
  }

  /** Byte n of an RGB frame belongs to this column, */
  function PixelColumn(w: nat, n: int): int
    requires w > 0
  {
    n / 3 % w
  }

  /** this row (the bottom row comes first), */
  function PixelRow(w: nat, h: nat, n: int): int
    requires w > 0
  {
    h - 1 - n / 3 / w
  }

  /** and this child's plane: blue, green, red in slots 2, 1, 0. */
  function PixelSlot(n: int): int {
    2 - n % 3
  }

  /**
   * Where `RGB_Space` writes channel c (0 blue, 1 green, 2 red) of column x in row y: rows
   * from the bottom up, columns left to right, three bytes per pixel.
   */
  function PixelIndex(w: nat, h: nat, x: int, y: int, c: int): (n: int)
    requires 0 <= x < w && 0 <= y < h && 0 <= c < 3
    ensures 0 <= n < 3 * (w * h)
  {
    PixelDecode(w, h, x, y, c);
    3 * ((h - 1 - y) * w + x) + c
  }

  /** The byte the loop writes for channel c of column x in row y is the one the layout above names. */
  lemma PixelDecode(w: nat, h: nat, x: int, y: int, c: int)
    requires 0 <= x < w && 0 <= y < h && 0 <= c < 3
    ensures var n := 3 * ((h - 1 - y) * w + x) + c;
      0 <= n < 3 * (w * h) && PixelColumn(w, n) == x && PixelRow(w, h, n) == y && PixelSlot(n) == 2 - c
  {
    var row := h - 1 - y;
    var q := row * w + x;
    var n := 3 * q + c;
    DivModUnique(n, 3, q, c);
    DivModUnique(q, w, row, x);
    assert q < w * h by {
      assert row <= h - 1;
      MulMonotone(row, h - 1, w);
      assert (h - 1) * w + w == w * h;
    }
  }

  /** Every byte of the frame is the one for exactly one channel of one cell. */
  lemma PixelCovers(w: nat, h: nat, n: int)
    requires 0 <= n < 3 * (w * h)
    ensures w > 0 && 0 <= PixelColumn(w, n) < w && 0 <= PixelRow(w, h, n) < h && 0 <= 2 - PixelSlot(n) < 3
    ensures n == PixelIndex(w, h, PixelColumn(w, n), PixelRow(w, h, n), 2 - PixelSlot(n))
  {
    var q := n / 3;
    assert n == 3 * q + n % 3;
    assert q == (q / w) * w + q % w;
    assert q < w * h;
    if q / w >= h {
      MulMonotone(h, q / w, w);
      assert false;
    }
  }

  /** An `RGB_Space` node over children with no `RGB_Space` of their own: the trees whose frame computes. */
  predicate Paintable(e: Expr) {
    WellFormed(e) && e.kind == RGBSpace && forall k :: 0 <= k < |e.kids| ==> Colorless(e.kids[k])
  }

  /** Byte n of the frame a paintable tree gives over the column coordinates X and row coordinates Y. */
  function FrameByte(f: Formula, e: Expr, X: seq<real>, Y: seq<real>, n: int): byte
    requires Paintable(e) && 0 <= n < 3 * (|X| * |Y|)
  {
    PixelCovers(|X|, |Y|, n);
    Channel(Eval(f, e.kids[PixelSlot(n)], X[PixelColumn(|X|, n)], Y[PixelRow(|X|, |Y|, n)]))
  }

  /**
   * The length `w * h * 3` that `RGB_Space.compute` allocates, in `int` arithmetic: it is
   * the number of bytes of the frame exactly when that number fits an `int`.
   */
  function PixLength(w: nat, h: nat): (n: int)
    ensures IsInt32(n)
    ensures n == 3 * (w * h) <==> 3 * (w * h) <= INT_MAX
  {
    Wrap32(Wrap32(w * h) * 3)
  }

  /** The whole frame. */
  function Frame(f: Formula, e: Expr, X: seq<real>, Y: seq<real>): (r: seq<byte>)
    requires Paintable(e)
    ensures |r| == 3 * (|X| * |Y|) && forall n :: 0 <= n < |r| ==> r[n] == FrameByte(f, e, X, Y, n)
  {
    seq(3 * (|X| * |Y|), n requires 0 <= n < 3 * (|X| * |Y|) => FrameByte(f, e, X, Y, n))
  }

  /**
   * In the frame, channel c of column x in row y is the child for that colour (red, green,
   * blue in slots 0, 1, 2) evaluated at the column's and the row's coordinate.
   */
  lemma FramePixel(f: Formula, e: Expr, X: seq<real>, Y: seq<real>, x: int, y: int, c: int)
    requires Paintable(e) && 0 <= x < |X| && 0 <= y < |Y| && 0 <= c < 3
    ensures Frame(f, e, X, Y)[PixelIndex(|X|, |Y|, x, y, c)] == Channel(Eval(f, e.kids[2 - c], X[x], Y[y]))
  {
    var n := PixelIndex(|X|, |Y|, x, y, c);
    PixelIndexDecodes(|X|, |Y|, x, y, c);
    FrameAt(f, e, X, Y, n, x, y, c);
  }

  /** `PixelDecode` stated about `PixelIndex` itself. */
  lemma PixelIndexDecodes(w: nat, h: nat, x: int, y: int, c: int)
    requires 0 <= x < w && 0 <= y < h && 0 <= c < 3
    ensures var n := PixelIndex(w, h, x, y, c);
      PixelColumn(w, n) == x && PixelRow(w, h, n) == y && PixelSlot(n) == 2 - c
  {
    PixelDecode(w, h, x, y, c);
  }

  /** The frame byte at an index whose column, row and slot are known. */
  lemma FrameAt(f: Formula, e: Expr, X: seq<real>, Y: seq<real>, n: int, x: int, y: int, c: int)
    requires Paintable(e) && 0 <= n < 3 * (|X| * |Y|) && 0 <= x < |X| && 0 <= y < |Y| && 0 <= c < 3
    requires PixelColumn(|X|, n) == x && PixelRow(|X|, |Y|, n) == y && PixelSlot(n) == 2 - c
    ensures Frame(f, e, X, Y)[n] == Channel(Eval(f, e.kids[2 - c], X[x], Y[y]))
  {
    assert Frame(f, e, X, Y)[n] == FrameByte(f, e, X, Y, n);
  }

  /** Byte n of the planes `ps` (red, green, blue), laid out as in the frame. */
  function PlaneByte(ps: seq<Plane>, w: nat, h: nat, n: int): byte
    requires |ps| == 3 && forall k :: 0 <= k < 3 ==> ps[k].data.Length0 == w && ps[k].data.Length1 == h
    requires 0 <= n < 3 * (w * h)
    reads set k | 0 <= k < |ps| :: ps[k].data
  {
    PixelCovers(w, h, n);
    Channel(ps[PixelSlot(n)].data[PixelColumn(w, n), PixelRow(w, h, n)])
  }

  /** Across a heap change that leaves its footprint alone, a node keeps its validity and model. */
  twostate lemma NodeKept(n: OperationNode)
    requires old(allocated(n)) && unchanged(old(n.Repr))
    ensures old(n.Valid()) ==> n.Valid() && (old(n.Complete()) ==> n.Complete() && n.Model() == old(n.Model()))
  {
  }
}
