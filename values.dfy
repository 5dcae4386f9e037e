/**
 * The `Value` parameters of operation nodes (src/vash/value): `Bounded`, a number inside
 * fixed bounds; `Position`, an (x, y) pair; and `Wrapping`, a number on a circular range.
 * Each can be drawn from a `Seed` or given explicitly, and each can be copied.
 *
 * A Java constructor that can throw is modelled as a static `Create` method returning a
 * `Result`.
 */
module Values {
  import opened Wrappers
  import opened Jvm
  import Seeds

  /** The double drawn last. */
  function LastDouble(log: seq<Seeds.Draw>): real
    requires |log| > 0 && log[|log| - 1].DrewDouble?
  {
    log[|log| - 1].d
  }

  /** `d * (upper - lower) + lower`: a draw in [0,1) moved onto the range. */
  function Scale(d: real, lower: real, upper: real): (r: real)
    ensures 0.0 <= d < 1.0 && lower < upper ==> lower <= r < upper
    ensures d == 0.0 ==> r == lower
  {
    var w := upper - lower;
    if 0.0 <= d < 1.0 && lower < upper then
      ScaleBelowWidth(d, w);
      d * w + lower
    else
      d * w + lower
  }

  lemma ScaleBelowWidth(d: real, w: real)
    requires 0.0 <= d < 1.0 && 0.0 < w
    ensures 0.0 <= d * w < w
  {
    var e := 1.0 - d;
    assert e > 0.0;
    assert e * w > 0.0;
    assert d * w + e * w == w;
  }

  /** `d * 2.0 - 1.0`: the coordinate a draw gives a `Position`. */
  function Coordinate(d: real): (r: real)
    ensures 0.0 <= d < 1.0 ==> -1.0 <= r < 1.0
    ensures r == Scale(d, -1.0, 1.0)
  {
    d * 2.0 - 1.0
  }

  class Bounded {
    var v: real
    const lower: real
    const upper: real

    /** `Bounded()`: zero, with the default bounds [-1,1]. */
    constructor Origin()
      ensures v == 0.0 && lower == -1.0 && upper == 1.0
    {
      v := 0.0;
      lower := -1.0;
      upper := 1.0;
    }

    /** `Bounded(s, lower, upper)`: one double `d`, giving `d * (upper - lower) + lower`. */
    constructor FromSeed(s: Seeds.Seed, lower: real, upper: real)
      requires s.Valid()
      modifies s, s.Footprint()
      ensures s.Valid() && |s.log| == |old(s.log)| + 1 && s.log[..|old(s.log)|] == old(s.log)
      ensures s.log[|s.log| - 1].DrewDouble?
      ensures v == Scale(LastDouble(s.log), lower, upper)
      ensures this.lower == lower && this.upper == upper
      ensures lower < upper ==> lower <= v < upper
    {
      var d := s.NextDouble();
      v := Scale(d, lower, upper);
      this.lower := lower;
      this.upper := upper;
      new;
      assert s.log[..|old(s.log)|] == old(s.log);
    }

    /** The private constructor behind `Bounded(v, lower, upper)`; it stores without checking. */
    constructor Of(v: real, lower: real, upper: real)
      ensures this.v == v && this.lower == lower && this.upper == upper
    {
      this.v := v;
      this.lower := lower;
      this.upper := upper;
    }

    /** `Bounded(v, lower, upper)`: throws unless lower <= v <= upper, and otherwise stores `v` as given. */
    static method Create(v: real, lower: real, upper: real) returns (r: Result<Bounded, Exception>)
      ensures r.Failure? <==> v < lower || v > upper
      ensures r.Failure? ==> r.error == IllegalArgument
      ensures r.Success? ==> fresh(r.value) && r.value.v == v && r.value.lower == lower && r.value.upper == upper
    {
      if v < lower || v > upper {
        return Failure(IllegalArgument);
      }
      var b := new Bounded.Of(v, lower, upper);
      return Success(b);
    }

    /** `Bounded(v)`: the bounds [-1,1]. */
    static method CreateUnit(v: real) returns (r: Result<Bounded, Exception>)
      ensures r.Failure? <==> v < -1.0 || v > 1.0
      ensures r.Failure? ==> r.error == IllegalArgument
      ensures r.Success? ==> fresh(r.value) && r.value.v == v && r.value.lower == -1.0 && r.value.upper == 1.0
    {
      r := Create(v, -1.0, 1.0);
    }

    /**
     * `clone`: a new object with the same value and bounds. It goes through the checking
     * constructor, so it throws for a value that `setV` has moved out of range.
     */
    method Clone() returns (r: Result<Bounded, Exception>)
      ensures r.Failure? <==> !InRange()
      ensures r.Failure? ==> r.error == IllegalArgument
      ensures r.Success? ==> fresh(r.value) && r.value.v == v && r.value.lower == lower && r.value.upper == upper
    {
      r := Create(v, lower, upper);
    }

    /** The value lies within its bounds. */
    predicate InRange()
      reads this
    {
      lower <= v <= upper
    }

    /**
     * `hasBounds(l, u)`: exact comparison of both bounds. When it holds, the range check of
     * `clone` is the check against `l` and `u`.
     */
    predicate HasBounds(l: real, u: real): (b: bool)
      reads this
      ensures b <==> lower == l && upper == u
      ensures b ==> (InRange() <==> l <= v <= u)
    {
      lower == l && upper == u
    }

    /** `setV`: stores the new value with no range check and no clamping. */
    method SetV(x: real)
      modifies this
      ensures v == x
    {
      v := x;
    }
  }

  /**
   * `Wrapping`. Its source is not part of this model: it is taken to have `Bounded`'s
   * fields and to draw one double from a `Seed`, scaled onto its range.
   */
  class Wrapping {
    var v: real
    const lower: real
    const upper: real

    constructor FromSeed(s: Seeds.Seed, lower: real, upper: real)
      requires s.Valid()
      modifies s, s.Footprint()
      ensures s.Valid() && |s.log| == |old(s.log)| + 1 && s.log[..|old(s.log)|] == old(s.log)
      ensures s.log[|s.log| - 1].DrewDouble?
      ensures v == Scale(LastDouble(s.log), lower, upper)
      ensures this.lower == lower && this.upper == upper
    {
      var d := s.NextDouble();
      v := Scale(d, lower, upper);
      this.lower := lower;
      this.upper := upper;
      new;
      assert s.log[..|old(s.log)|] == old(s.log);
    }

    constructor Of(v: real, lower: real, upper: real)
      ensures this.v == v && this.lower == lower && this.upper == upper
    {
      this.v := v;
      this.lower := lower;
      this.upper := upper;
    }

    method Clone() returns (c: Wrapping)
      ensures fresh(c) && c.v == v && c.lower == lower && c.upper == upper
    {
      c := new Wrapping.Of(v, lower, upper);
    }
  }

  /** `Position`; the Java class keeps x and y in an inner `Coord` object, here they are fields. */
  class Position {
    var x: real
    var y: real

    /** `Position()`: the origin. */
    constructor Origin()
      ensures x == 0.0 && y == 0.0
    {
      x, y := 0.0, 0.0;
    }

    /** `Position(x, y)`. */
    constructor At(x: real, y: real)
      ensures this.x == x && this.y == y
    {
      this.x, this.y := x, y;
    }

    /**
     * `Position(s)`: two doubles, x first; Java evaluates the two arguments of `this(...)`
     * left to right. Each maps to `d * 2 - 1`, in [-1,1).
     */
    constructor FromSeed(s: Seeds.Seed)
      requires s.Valid()
      modifies s, s.Footprint()
      ensures s.Valid() && |s.log| == |old(s.log)| + 2 && s.log[..|old(s.log)|] == old(s.log)
      ensures s.log[|s.log| - 2].DrewDouble? && s.log[|s.log| - 1].DrewDouble?
      ensures x == Coordinate(s.log[|s.log| - 2].d) && y == Coordinate(s.log[|s.log| - 1].d)
      ensures -1.0 <= x < 1.0 && -1.0 <= y < 1.0
    {
      var dx := s.NextDouble();
      var dy := s.NextDouble();
      x, y := Coordinate(dx), Coordinate(dy);
      new;
      assert s.log[..|old(s.log)|] == old(s.log);
    }

    /** The copy constructor `Position(p)`. */
    constructor Copy(p: Position)
      ensures x == p.x && y == p.y
    {
      x, y := p.x, p.y;
    }

    /** `clone`: a new object at the same place. */
    method Clone() returns (c: Position)
      ensures fresh(c) && c.x == x && c.y == y
    {
      c := new Position.At(x, y);
    }

    /** `setX` changes x alone. */
    method SetX(v: real)
      modifies this
      ensures x == v && y == old(y)
    {
      x := v;
    }

    /** `setY` changes y alone. */
    method SetY(v: real)
      modifies this
      ensures y == v && x == old(x)
    {
      y := v;
    }

    /** `hasBounds(x0, y0, x1, y1)`: a position has no bounds of its own, so it accepts any. */
    predicate HasBounds(x0: real, y0: real, x1: real, y1: real): (b: bool)
      ensures b
    {
      true
    }
  }

  /** The `Value` references a node keeps in `_values`. */
  datatype Value = BoundedValue(b: Bounded) | WrappingValue(w: Wrapping) | PositionValue(p: Position)

  /** The object a `Value` refers to. */
  function Target(v: Value): object {
    match v
    case BoundedValue(b) => b
    case WrappingValue(w) => w
    case PositionValue(p) => p
  }

  /** The numbers a value holds at one moment. */
  datatype Snapshot =
    | BoundedSnapshot(v: real, lower: real, upper: real)
    | WrappingSnapshot(v: real, lower: real, upper: real)
    | PositionSnapshot(x: real, y: real)

  function SnapshotOf(v: Value): Snapshot
    reads Target(v)
  {
    match v
    case BoundedValue(b) => BoundedSnapshot(b.v, b.lower, b.upper)
    case WrappingValue(w) => WrappingSnapshot(w.v, w.lower, w.upper)
    case PositionValue(p) => PositionSnapshot(p.x, p.y)
  }

  /** A value whose object did not change holds the same numbers. */
  twostate lemma SnapshotKept(v: Value)
    requires old(allocated(Target(v))) && unchanged(Target(v))
    ensures SnapshotOf(v) == old(SnapshotOf(v))
  {
  }
}
