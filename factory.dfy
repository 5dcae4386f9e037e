/**
 * `OperationFactory` (src/vash/operation/OperationFactory.java): the node class each
 * operation tag builds, and the seed constructor it calls.
 */
module Factory {
  import opened Operations
  import opened Nodes
  import Seeds

  /**
   * The class `createNode` instantiates for a tag. `GRADIENT_LINEAR` builds the legacy
   * `LinearGradient` under the algorithms "1" and "1-fast" and `LinearGradient1` otherwise.
   */
  function ClassFor(op: Operation, a: Seeds.Algorithm): NodeKind {
    if op == GRADIENT_LINEAR then (if a == Seeds.OnePointOne then LinearGradient1 else LinearGradient)
    else FixedClass(op)
  }

  /** The class of every tag but `GRADIENT_LINEAR`, which no algorithm changes. */
  function FixedClass(op: Operation): NodeKind
    requires op != GRADIENT_LINEAR
  {
    match op
    case RGB => RGBSpace
    case ABSOLUTE => Absolute
    case ADD => Add
    case DIVIDE => Divide
    case EXPONENTIATE => Exponentiate
    case INVERT => Invert
    case MODULUS => Modulus
    case MULTIPLY => Multiply
    case SINC => Sinc
    case SINE => Sine
    case SPIRAL => Spiral
    case SQUIRCLE => Squircle
    case CONST => Const
    case ELLIPSE => Ellipse
    case FLOWER => Flower
    case GRADIENT_RADIAL => RadialGradient
    case POLAR_THETA => PolarTheta
  }

  /** The tag a class is built for. */
  function TagOf(k: NodeKind): Operation {
    match k
    case RGBSpace => RGB
    case Absolute => ABSOLUTE
    case Add => ADD
    case Divide => DIVIDE
    case Exponentiate => EXPONENTIATE
    case Invert => INVERT
    case Modulus => MODULUS
    case Multiply => MULTIPLY
    case Sinc => SINC
    case Sine => SINE
    case Spiral => SPIRAL
    case Squircle => SQUIRCLE
    case Const => CONST
    case Ellipse => ELLIPSE
    case Flower => FLOWER
    case LinearGradient | LinearGradient1 => GRADIENT_LINEAR
    case RadialGradient => GRADIENT_RADIAL
    case PolarTheta => POLAR_THETA
  }

  /**
   * Every tag builds a class of its own: the tag can be read back from the class, and the
   * class of a tag is the one `TagOf` maps back, the linear gradient's variant being fixed by
   * the algorithm.
   */
  lemma ClassAndTag(op: Operation, k: NodeKind, a: Seeds.Algorithm)
    ensures TagOf(ClassFor(op, a)) == op
    ensures ClassFor(op, a) == k <==>
      TagOf(k) == op && (op == GRADIENT_LINEAR ==> (k == LinearGradient1 <==> a == Seeds.OnePointOne))
  {
  }

  /**
   * The candidate lists group the tags by the shape of what they build: `TOPS` builds the one
   * class with three channel slots, `NODES` classes with one or two slots, `LEAFS` classes
   * without slots.
   */
  lemma ListsByArity(op: Operation, a: Seeds.Algorithm)
    ensures ClassFor(op, a) == RGBSpace <==> op in TOPS
    ensures op in TOPS ==> Arity(ClassFor(op, a)) == 3
    ensures op in NODES <==> 1 <= Arity(ClassFor(op, a)) <= 2
    ensures op in LEAFS <==> Arity(ClassFor(op, a)) == 0
  {
    TopsByArity(op, a);
    NodesByArity(op, a);
    LeafsByArity(op, a);
  }

  lemma TopsByArity(op: Operation, a: Seeds.Algorithm)
    ensures ClassFor(op, a) == RGBSpace <==> op in TOPS
    ensures op in TOPS ==> Arity(ClassFor(op, a)) == 3
  {
  }

  lemma NodesByArity(op: Operation, a: Seeds.Algorithm)
    ensures op in NODES <==> 1 <= Arity(ClassFor(op, a)) <= 2
  {
  }

  lemma LeafsByArity(op: Operation, a: Seeds.Algorithm)
    ensures op in LEAFS <==> Arity(ClassFor(op, a)) == 0
  {
  }

  /**
   * `createNode`: the seed constructor of the tag's class; the factory draws nothing itself,
   * so the seed's log grows by exactly what that constructor draws.
   */
  method CreateNode(op: Operation, s: Seeds.Seed) returns (node: OperationNode)
    requires s.Valid()
    modifies s, s.Footprint()
    ensures node.Valid() && node.Empty() && fresh(node.Repr) && node.kind == ClassFor(op, s.kind)
    ensures s !in node.Repr && s.Footprint() !! node.Repr
    ensures s.Valid() && |old(s.log)| <= |s.log| && s.log[..|old(s.log)|] == old(s.log)
    ensures node.SeededBy(s.log[|old(s.log)|..])
  {
    if op == GRADIENT_LINEAR {
      node := CreateLinearGradient(s);
    } else {
      node := OperationNode.FromSeed(FixedClass(op), s);
    }
  }

  /** `createLinearGradient`: the class is chosen by comparing the seed's algorithm tag. */
  method CreateLinearGradient(s: Seeds.Seed) returns (node: OperationNode)
    requires s.Valid()
    modifies s, s.Footprint()
    ensures node.Valid() && node.Empty() && fresh(node.Repr) && node.kind == ClassFor(GRADIENT_LINEAR, s.kind)
    ensures s.Valid() && |old(s.log)| <= |s.log| && s.log[..|old(s.log)|] == old(s.log)
    ensures node.SeededBy(s.log[|old(s.log)|..])
  {
    Seeds.AlgorithmOfTag(s.algorithm, s.kind);
    if s.algorithm == "1" || s.algorithm == "1-fast" {
      node := OperationNode.FromSeed(LinearGradient, s);
    } else {
      node := OperationNode.FromSeed(LinearGradient1, s);
    }
  }
}
