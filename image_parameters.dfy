/**
 * `ImageParameters` (src/vash/ImageParameters.java): the image size, the logical coordinate
 * of every column and row, and a pool of planes that nodes borrow with `getPlane` and give
 * back with `putPlane`.
 *
 * The ghost set `lent` holds the planes handed out and not yet returned, the ghost set
 * `pool` the buffers the pool may hand out again, and the ghost set `made` every buffer it
 * has ever handed out; `Valid` keeps the lent buffers out of the pool and apart from each
 * other, and ties `lent` to the difference of the two counters.
 */
module ImageParams {
  import opened Jvm
  import opened Planes
  import opened Wrappers

  /** `MAX_CACHE_SIZE`: 64 MiB. */
  const MAX_CACHE_SIZE: int := 64 * 1024 * 1024

  /** The logical x of column i: the centre of the i-th of w equal slices of [-1,1]. */
  function ColumnX(w: nat, i: int): real
    requires w > 0
  {
    -1.0 + (2.0 / w as real) / 2.0 + i as real * (2.0 / w as real)
  }

  /** The logical y of row j: the centre of the j-th of h equal slices of [1,-1], top first. */
  function RowY(h: nat, j: int): real
    requires h > 0
  {
    1.0 - (2.0 / h as real) / 2.0 - j as real * (2.0 / h as real)
  }

  lemma CoordinatesInside(n: nat, i: int)
    requires 0 <= i < n
    ensures -1.0 < ColumnX(n, i) < 1.0
    ensures -1.0 < RowY(n, i) < 1.0
  {
    var d := 2.0 / n as real;
    var k := i as real;
    assert d * n as real == 2.0;
    assert d > 0.0;
    assert k * d >= 0.0;
    assert (n as real - (k + 1.0)) * d >= 0.0;
    assert k * d + d <= 2.0;
    assert ColumnX(n, i) == -1.0 + d / 2.0 + k * d;
    assert RowY(n, i) == 1.0 - d / 2.0 - k * d;
  }

  class ImageParameters {
    const w: nat
    const h: nat
    const X: array<real>
    const Y: array<real>
    /** The free list; its front is `getFirst`. */
    var cache: seq<Plane>
    var gets: int
    var puts: int
    ghost var lent: set<Plane>
    /**
     * Buffers a node's computation may overwrite: those of every cached plane (and of planes
     * dropped by `putPlane`), never those of a lent one.
     */
    ghost var pool: set<array2<real>>
    /** The plane each lent buffer belongs to. */
    ghost var owner: map<array2<real>, Plane>
    /** Every buffer handed out so far; it only grows, and only by new buffers. */
    ghost var made: set<array2<real>>

    ghost predicate Grid()
      reads this, X, Y
      requires X.Length == w && Y.Length == h
    {
      (forall i :: 0 <= i < w ==> X[i] == ColumnX(w, i)) &&
      (forall j :: 0 <= j < h ==> Y[j] == RowY(h, j))
    }

    /** A pooled plane has the image's size. */
    ghost predicate Fits(p: Plane) {
      p.w == w && p.h == h && p.data.Length0 == w && p.data.Length1 == h
    }

    /**
     * No two cached planes share a buffer; each cached buffer is in the pool and no lent
     * one is; every lent plane is the `owner` of its buffer, so no two of them share one;
     * pooled and lent buffers are among those `made`.
     */
    ghost predicate Separate()
      reads this
    {
      (forall i, j :: 0 <= i < j < |cache| ==> cache[i].data != cache[j].data) &&
      (forall i :: 0 <= i < |cache| ==> cache[i].data in pool) &&
      (forall p :: p in lent ==> p.data !in pool && p.data in owner && owner[p.data] == p && p.data in made) &&
      pool <= made
    }

    ghost predicate Valid()
      reads this, X, Y
    {
      X.Length == w && Y.Length == h &&
      (forall i :: 0 <= i < |cache| ==> Fits(cache[i])) &&
      (forall p :: p in lent ==> Fits(p)) &&
      Separate() &&
      gets - puts == |lent|
    }

    /** Two different planes out on loan never share a buffer: each buffer has one owner. */
    lemma LentApart(p: Plane, q: Plane)
      requires Valid() && p in lent && q in lent && p != q
      ensures p.data != q.data
    {
    }

    /** The constructor: an empty cache, zero counters, and the coordinate tables filled row by row, then column by column. */
    constructor (w: nat, h: nat)
      ensures Valid() && fresh(X) && fresh(Y) && Grid()
      ensures this.w == w && this.h == h
      ensures cache == [] && gets == 0 && puts == 0 && lent == {} && pool == {} && made == {}
    {
      this.w, this.h := w, h;
      cache, gets, puts, lent, pool, owner, made := [], 0, 0, {}, {}, map[], {};
      var xs := new real[w];
      var ys := new real[h];
      if h > 0 {
        var dy := 2.0 / h as real;
        var j, gy := 0, 1.0 - dy / 2.0;
        while j < h
          invariant 0 <= j <= h
          invariant gy == 1.0 - dy / 2.0 - j as real * dy
          invariant forall k :: 0 <= k < j ==> ys[k] == RowY(h, k)
        {
          ys[j] := gy;
          j, gy := j + 1, gy - dy;
        }
      }
      if w > 0 {
        var dx := 2.0 / w as real;
        var i, gx := 0, -1.0 + dx / 2.0;
        while i < w
          invariant 0 <= i <= w
          invariant gx == -1.0 + dx / 2.0 + i as real * dx
          invariant forall k :: 0 <= k < i ==> xs[k] == ColumnX(w, k)
          invariant forall k :: 0 <= k < h ==> ys[k] == RowY(h, k)
        {
          xs[i] := gx;
          i, gx := i + 1, gx + dx;
        }
      }
      X, Y := xs, ys;
    }

    /**
     * `new ImageParameters(w, h)` for any `int` sizes: `new float[w]` throws for a negative
     * width before `new float[h]` is reached, and that one for a negative height.
     */
    static method Create(w: int, h: int) returns (r: Result<ImageParameters, Exception>)
      ensures r.Failure? <==> w < 0 || h < 0
      ensures r.Failure? ==> r.error == NegativeArraySize
      ensures r.Success? ==> fresh(r.value) && fresh(r.value.X) && fresh(r.value.Y)
      ensures r.Success? ==> r.value.Valid() && r.value.Grid() && r.value.w == w && r.value.h == h
      ensures r.Success? ==> r.value.cache == [] && r.value.gets == 0 && r.value.puts == 0 && r.value.lent == {}
    {
      if w < 0 || h < 0 {
        return Failure(NegativeArraySize);
      }
      var ip := new ImageParameters(w, h);
      return Success(ip);
    }

    /**
     * The budget test of `putPlane`, on the count of planes out and cached after `_puts`
     * has been incremented. `w * h * 4` is Java `int` arithmetic and wraps; the product
     * with the `long` count does not.
     */
    predicate Admits(held: int) {
      held * Wrap32(w * h * 4) < MAX_CACHE_SIZE
    }

    /** Without wrap-around the test is exactly "these planes take less than 64 MiB". */
    lemma AdmitsBudget(held: int)
      requires w * h * 4 < TWO_31
      ensures Admits(held) <==> held * (w * h * 4) < MAX_CACHE_SIZE
    {
      assert Wrap32(w * h * 4) == w * h * 4;
    }

    /** `getPlane`: the front of the cache when there is one, otherwise a new w×h plane. */
    method GetPlane() returns (r: Plane)
      requires Valid()
      modifies this
      ensures Valid()
      ensures gets == old(gets) + 1 && puts == old(puts)
      ensures |old(cache)| > 0 ==> r == old(cache)[0] && cache == old(cache)[1..]
      ensures |old(cache)| == 0 ==> fresh(r) && fresh(r.data) && cache == old(cache)
      ensures made == old(made) || (fresh(r.data) && made == old(made) + {r.data})
      ensures pool <= old(pool) && (r.data in old(pool) || r.data !in old(made))
      ensures r !in old(lent) && lent == old(lent) + {r}
      ensures r.data.Length0 == w && r.data.Length1 == h
    {
      if |cache| > 0 {
        r := TakeCached();
      } else {
        r := Allocate();
      }
    }

    /** The branch of `getPlane` that hands out the front of the cache. */
    method TakeCached() returns (r: Plane)
      requires Valid() && |cache| > 0
      modifies this
      ensures Valid()
      ensures gets == old(gets) + 1 && puts == old(puts)
      ensures r == old(cache)[0] && cache == old(cache)[1..] && pool == old(pool) - {r.data}
      ensures made == old(made)
      ensures r !in old(lent) && lent == old(lent) + {r}
      ensures r.data.Length0 == w && r.data.Length1 == h
    {
      gets := gets + 1;
      r := cache[0];
      TakeFront();
      cache := cache[1..];
      lent := lent + {r};
      pool := pool - {r.data};
      owner := owner[r.data := r];
    }

    /** The branch of `getPlane` that allocates. */
    method Allocate() returns (r: Plane)
      requires Valid() && |cache| == 0
      modifies this
      ensures Valid()
      ensures gets == old(gets) + 1 && puts == old(puts)
      ensures fresh(r) && fresh(r.data) && cache == old(cache) && pool == old(pool)
      ensures made == old(made) + {r.data} && r.data !in old(made)
      ensures r !in old(lent) && lent == old(lent) + {r}
      ensures r.data.Length0 == w && r.data.Length1 == h
    {
      gets := gets + 1;
      r := new Plane(w, h);
      lent := lent + {r};
      owner := owner[r.data := r];
      made := made + {r.data};
    }

    /** Moving the front of the cache to `lent` keeps the rest of the cache apart from it. */
    lemma TakeFront()
      requires Separate() && |cache| > 0
      ensures cache[0] !in lent
      ensures forall i, j :: 0 <= i < j < |cache| - 1 ==> cache[1..][i].data != cache[1..][j].data
      ensures forall i :: 0 <= i < |cache| - 1 ==> cache[1..][i].data in pool - {cache[0].data}
    {
      assert forall i :: 0 <= i < |cache| - 1 ==> cache[1..][i] == cache[i + 1];
    }

    /** `putPlane`: always counted, kept at the front of the cache only when the budget admits it. */
    method PutPlane(p: Plane)
      requires Valid() && p in lent
      modifies this
      ensures Valid()
      ensures puts == old(puts) + 1 && gets == old(gets)
      ensures lent == old(lent) - {p} && pool == old(pool) + {p.data} && made == old(made)
      ensures cache == if Admits(gets - puts + |old(cache)|) then [p] + old(cache) else old(cache)
    {
      puts := puts + 1;
      if Admits(gets - puts + |cache|) {
        PushFront(p);
        cache := [p] + cache;
      }
      lent := lent - {p};
      pool := pool + {p.data};
    }

    /**
     * The cache after `putPlane` of each of `ps` in turn, starting from `cache` with `out`
     * planes handed out and not yet returned.
     */
    function CacheAfter(cache: seq<Plane>, out: int, ps: seq<Plane>): (r: seq<Plane>)
      decreases |ps|
    {
      if |ps| == 0 then cache
      else CacheAfter(if Admits(out - 1 + |cache|) then [ps[0]] + cache else cache, out - 1, ps[1..])
    }

    /** Putting planes back only ever adds those planes, never longer than it was plus them. */
    lemma {:induction false} CacheAfterFrom(cache: seq<Plane>, out: int, ps: seq<Plane>)
      ensures forall p :: p in CacheAfter(cache, out, ps) ==> p in cache || p in ps
      ensures |cache| <= |CacheAfter(cache, out, ps)| <= |cache| + |ps|
      decreases |ps|
    {
      if |ps| > 0 {
        var next := if Admits(out - 1 + |cache|) then [ps[0]] + cache else cache;
        CacheAfterFrom(next, out - 1, ps[1..]);
        assert forall p :: p in ps[1..] ==> p in ps;
      }
    }

    /** A lent plane's buffer is not among the cached ones. */
    lemma PushFront(p: Plane)
      requires Separate() && p in lent
      ensures forall i, j :: 0 <= i < j < |cache| + 1 ==> ([p] + cache)[i].data != ([p] + cache)[j].data
    {
      assert forall i :: 0 <= i < |cache| ==> ([p] + cache)[i + 1] == cache[i];
    }

    /** `getYXPlane`: always a new plane, h×w (mirrored about y = x); the pool is untouched. */
    method GetYXPlane() returns (r: Plane)
      ensures fresh(r) && fresh(r.data) && r.w == h && r.h == w
      ensures r.data.Length0 == h && r.data.Length1 == w
    {
      r := new Plane(h, w);
    }

    /** `putYXPlane` does nothing: the plane is not pooled and no counter moves. */
    method PutYXPlane(p: Plane)
      ensures cache == old(cache) && gets == old(gets) && puts == old(puts)
      ensures lent == old(lent) && pool == old(pool)
    {
    }
  }
}
