/**
 * The operation tags of src/vash/operation/Operation.java, the candidate lists of
 * src/vash/Tree.java, and the node classes the factory builds, with the arity and the
 * `Value` parameters each class is constructed with.
 */
module Operations {
  /** `Operation`, in declaration order. */
  datatype Operation =
    | RGB
    | ABSOLUTE | ADD | DIVIDE | EXPONENTIATE | INVERT | MODULUS | MULTIPLY
    | SINC | SINE | SPIRAL | SQUIRCLE
    | CONST | ELLIPSE | FLOWER | GRADIENT_LINEAR | GRADIENT_RADIAL | POLAR_THETA

  /** Every tag, in declaration order. */
  const ALL: seq<Operation> := [RGB, ABSOLUTE, ADD, DIVIDE, EXPONENTIATE, INVERT, MODULUS, MULTIPLY,
    SINC, SINE, SPIRAL, SQUIRCLE, CONST, ELLIPSE, FLOWER, GRADIENT_LINEAR, GRADIENT_RADIAL, POLAR_THETA]

  /** The candidate lists of the random walk, in the order `Tree` lists them. */
  const TOPS: seq<Operation> := [RGB]
  const NODES: seq<Operation> :=
    [ABSOLUTE, INVERT, ADD, DIVIDE, EXPONENTIATE, MODULUS, MULTIPLY, SINC, SINE, SPIRAL, SQUIRCLE]
  const LEAFS: seq<Operation> := [CONST, ELLIPSE, FLOWER, GRADIENT_LINEAR, GRADIENT_RADIAL, POLAR_THETA]

  lemma AllTags(op: Operation)
    ensures op in ALL && |ALL| == 18
    ensures (op in TOPS) || (op in NODES) || (op in LEAFS)
    ensures !(op in TOPS && op in NODES) && !(op in TOPS && op in LEAFS) && !(op in NODES && op in LEAFS)
  {
  }

  /** The Java classes a node can be an instance of. */
  datatype NodeKind =
    | RGBSpace
    | Absolute | Add | Divide | Exponentiate | Invert | Modulus | Multiply
    | Sinc | Sine | Spiral | Squircle
    | Const | Ellipse | Flower | LinearGradient | LinearGradient1 | RadialGradient | PolarTheta

  /**
   * The number of child slots each class allocates: `ColorNode` has three, the
   * `UnaryOperationNode` and `BinaryOperationNode` subclasses one and two, Sinc, Sine and
   * Spiral one, Squircle two, and the leaves none. The sources of Absolute, Add, Invert and
   * Modulus are not part of this model; their arity is the one `Tree` files them under.
   */
  function Arity(k: NodeKind): nat {
    match k
    case RGBSpace => 3
    case Absolute | Invert | Sinc | Sine | Spiral => 1
    case Add | Divide | Exponentiate | Modulus | Multiply | Squircle => 2
    case Const | Ellipse | Flower | LinearGradient | LinearGradient1 | RadialGradient | PolarTheta => 0
  }

  /** Subclasses of `UnaryOperationNode`. */
  predicate IsUnary(k: NodeKind) {
    k == Absolute || k == Invert
  }

  /** Subclasses of `BinaryOperationNode`. */
  predicate IsBinary(k: NodeKind) {
    k == Add || k == Divide || k == Exponentiate || k == Modulus || k == Multiply
  }

  /** The kind of one `Value` parameter and the bounds it is created with. */
  datatype ValueKind = BoundedIn(lower: real, upper: real) | WrappingIn(lower: real, upper: real) | PositionAnywhere

  /** `(float)Math.PI`, widened back to a double. */
  const PI_F: real := 3.1415927410125732421875

  /** The `Value` parameters of each class, in the order its constructor creates them. */
  function Shape(k: NodeKind): seq<ValueKind> {
    match k
    case Sinc | Sine => [BoundedIn(-PI_F, PI_F), WrappingIn(-PI_F, PI_F)]
    case Spiral => [PositionAnywhere, BoundedIn(0.0, 10.0), BoundedIn(-1.0, 1.0)]
    case Squircle => [PositionAnywhere, BoundedIn(0.0, 2.0), BoundedIn(0.0, 4.0)]
    case Const => [BoundedIn(-1.0, 1.0)]
    case Ellipse => [PositionAnywhere, PositionAnywhere, BoundedIn(0.1, 1.0)]
    case Flower => [PositionAnywhere, WrappingIn(0.0, 360.0), BoundedIn(0.0, 2.5), BoundedIn(0.0, 1.0)]
    case LinearGradient | LinearGradient1 => [PositionAnywhere, PositionAnywhere]
    case RadialGradient => [PositionAnywhere, BoundedIn(0.1, 0.8), BoundedIn(0.1, 0.8), WrappingIn(0.0, 360.0)]
    case PolarTheta => [PositionAnywhere, WrappingIn(-1.0, 1.0)]
    case RGBSpace | Absolute | Add | Divide | Exponentiate | Invert | Modulus | Multiply => []
  }

  lemma ArityAndShape(k: NodeKind)
    ensures IsUnary(k) || IsBinary(k) || k == RGBSpace ==> Shape(k) == []
    ensures IsUnary(k) ==> Arity(k) == 1
    ensures IsBinary(k) ==> Arity(k) == 2
    ensures k == Const ==> Arity(k) == 0 && Shape(k) == [BoundedIn(-1.0, 1.0)]
  {
  }

  /** The doubles one parameter takes from the seed: two for a position, one otherwise. */
  function DrawsFor(v: ValueKind): nat {
    if v.PositionAnywhere? then 2 else 1
  }

  /** The doubles a whole parameter list takes. */
  function DrawsForAll(vs: seq<ValueKind>): nat {
    if |vs| == 0 then 0 else DrawsFor(vs[0]) + DrawsForAll(vs[1..])
  }

  /** The doubles a class's seed constructor takes; `Flower` draws its point count last. */
  function DrawCount(k: NodeKind): nat {
    match k
    case Sinc | Sine => 2
    case Spiral | Squircle => 4
    case Const => 1
    case Ellipse => 5
    case Flower => 6
    case LinearGradient | LinearGradient1 => 4
    case RadialGradient => 5
    case PolarTheta => 3
    case RGBSpace | Absolute | Add | Divide | Exponentiate | Invert | Modulus | Multiply => 0
  }

  /** The table above is the count of the doubles the class's parameters take, plus `Flower`'s point count. */
  lemma DrawCountOfShape(k: NodeKind)
    ensures DrawCount(k) == DrawsForAll(Shape(k)) + (if k == Flower then 1 else 0)
  {
    var s := Shape(k);
    DrawsForAllUnrolled(s);
  }

  /** `DrawsForAll` of a list of at most four kinds, spelled out. */
  lemma DrawsForAllUnrolled(s: seq<ValueKind>)
    requires |s| <= 4
    ensures DrawsForAll(s) ==
      (if |s| > 0 then DrawsFor(s[0]) else 0) + (if |s| > 1 then DrawsFor(s[1]) else 0) +
      (if |s| > 2 then DrawsFor(s[2]) else 0) + (if |s| > 3 then DrawsFor(s[3]) else 0)
  {
    if |s| > 0 {
      var t := s[1..];
      if |t| > 0 {
        var u := t[1..];
        if |u| > 0 {
          assert DrawsForAll(u) == DrawsFor(u[0]) + DrawsForAll(u[1..]);
        }
      }
    }
  }

  /** `Flower`'s `(int)(d * 11.0) + 1`; the cast truncates toward zero, here on a non-negative value. */
  function PointsFrom(d: real): (r: int)
    ensures 0.0 <= d < 1.0 ==> 1 <= r <= 11
  {
    (d * 11.0).Floor + 1
  }
}
